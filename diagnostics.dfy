/**
 * The diagnostics that the theme generator writes after generating:
 * how many colors it produced, and which prefixes, suffixes and words
 * are most common among the keys that got no color
 * (`warnAboutMissingCustomizations` and `logTopCounts`).
 * The console is modelled by returning the lines that would be logged.
 */
module Diagnostics {
  import opened JsStrings
  import opened CloudWords

  // ---------------------------------------------------------------------
  // Tallies: `counts[w] = (counts[w] || 0) + 1`
  // ---------------------------------------------------------------------

  /** One more occurrence of `w`; a word not counted yet starts from 0. */
  function Bump(counts: map<string, nat>, w: string): map<string, nat> {
    counts[w := (if w in counts then counts[w] else 0) + 1]
  }

  /**
   * The tally of a sequence of words: each word that occurs, mapped to the
   * number of times it occurs.
   */
  function Tally(ws: seq<string>): map<string, nat> {
    if ws == [] then map[] else Bump(Tally(ws[..|ws| - 1]), ws[|ws| - 1])
  }

  /** The tally counts exactly the words that occur, each as often as it occurs. */
  lemma {:induction false} TallyCounts(ws: seq<string>)
    ensures forall w :: w in Tally(ws) <==> w in ws
    ensures forall w :: w in Tally(ws) ==> Tally(ws)[w] == multiset(ws)[w]
  {
    if ws != [] {
      var front := ws[..|ws| - 1];
      TallyCounts(front);
      assert ws == front + [ws[|ws| - 1]];
    }
  }

  /** The sum of all the counts of a tally. */
  ghost function Total(counts: map<string, nat>): nat
    decreases |counts|
  {
    if counts == map[] then 0
    else
      var k :| k in counts;
      counts[k] + Total(counts - {k})
  }

  /** Any one key can be taken out of the sum first. */
  lemma {:induction false} TotalRemove(counts: map<string, nat>, k: string)
    requires k in counts
    ensures Total(counts) == counts[k] + Total(counts - {k})
    decreases |counts|
  {
    var j :| j in counts && Total(counts) == counts[j] + Total(counts - {j});
    if j != k {
      TotalRemove(counts - {j}, k);
      TotalRemove(counts - {k}, j);
      assert (counts - {j}) - {k} == (counts - {k}) - {j};
    }
  }

  /** The counts of a tally add up to the number of words tallied. */
  lemma {:induction false} TallyTotal(ws: seq<string>)
    ensures Total(Tally(ws)) == |ws|
  {
    if ws != [] {
      var front := ws[..|ws| - 1];
      var w := ws[|ws| - 1];
      var t := Tally(front);
      TallyTotal(front);
      TotalRemove(Bump(t, w), w);
      if w in t {
        TotalRemove(t, w);
        assert Bump(t, w) - {w} == t - {w};
      } else {
        assert Bump(t, w) - {w} == t;
      }
    }
  }

  // ---------------------------------------------------------------------
  // What `warnAboutMissingCustomizations` tallies
  // ---------------------------------------------------------------------

  /** The keys, in order and with repetitions, that got no color. */
  function NotDone(customizations: map<string, string>, keys: seq<string>): seq<string> {
    if keys == [] then []
    else
      var front := NotDone(customizations, keys[..|keys| - 1]);
      var k := keys[|keys| - 1];
      if k in customizations then front else front + [k]
  }

  /** Exactly the keys without a color are listed, each as often as in `keys`. */
  lemma {:induction false} NotDoneKeys(customizations: map<string, string>, keys: seq<string>)
    ensures forall k :: k in NotDone(customizations, keys) <==> k in keys && k !in customizations
    ensures forall k :: k !in customizations ==> multiset(NotDone(customizations, keys))[k] == multiset(keys)[k]
  {
    if keys != [] {
      var front := keys[..|keys| - 1];
      NotDoneKeys(customizations, front);
      assert keys == front + [keys[|keys| - 1]];
    }
  }

  /** The text before the first dot of each key. */
  function Prefixes(keys: seq<string>): (r: seq<string>)
    ensures |r| == |keys|
  {
    if keys == [] then [] else Prefixes(keys[..|keys| - 1]) + [FirstSegment(keys[|keys| - 1])]
  }

  /** The text after the last dot of each key. */
  function Suffixes(keys: seq<string>): (r: seq<string>)
    ensures |r| == |keys|
  {
    if keys == [] then [] else Suffixes(keys[..|keys| - 1]) + [LastSegment(keys[|keys| - 1])]
  }

  /** The cloud words of all the keys, key after key. */
  function AllWords(keys: seq<string>): seq<string> {
    if keys == [] then [] else AllWords(keys[..|keys| - 1]) + Words(keys[|keys| - 1])
  }

  /**
   * The prefix counts, and the suffix counts, each add up to the number of
   * keys without a color.
   */
  lemma NotDoneSegmentTotals(customizations: map<string, string>, keys: seq<string>)
    ensures Total(Tally(Prefixes(NotDone(customizations, keys)))) == |NotDone(customizations, keys)|
    ensures Total(Tally(Suffixes(NotDone(customizations, keys)))) == |NotDone(customizations, keys)|
  {
    var notDone := NotDone(customizations, keys);
    TallyTotal(Prefixes(notDone));
    TallyTotal(Suffixes(notDone));
  }

  /** Position by position, the prefixes and suffixes belong to the keys. */
  lemma {:induction false} SegmentsOfKeys(keys: seq<string>)
    ensures forall i :: 0 <= i < |keys| ==> Prefixes(keys)[i] == FirstSegment(keys[i])
    ensures forall i :: 0 <= i < |keys| ==> Suffixes(keys)[i] == LastSegment(keys[i])
  {
    if keys != [] {
      var front := keys[..|keys| - 1];
      var last := keys[|keys| - 1];
      SegmentsOfKeys(front);
      var ps, ss := Prefixes(front), Suffixes(front);
      assert Prefixes(keys) == ps + [FirstSegment(last)];
      assert Suffixes(keys) == ss + [LastSegment(last)];
      forall i | 0 <= i < |front|
        ensures Prefixes(keys)[i] == FirstSegment(keys[i]) && Suffixes(keys)[i] == LastSegment(keys[i])
      {
        assert keys[i] == front[i];
        assert (ps + [FirstSegment(last)])[i] == ps[i];
        assert (ss + [LastSegment(last)])[i] == ss[i];
      }
    }
  }

  /** Every tallied word is a cloud word. */
  lemma {:induction false} AllWordsAreCloudWords(keys: seq<string>)
    ensures forall i :: 0 <= i < |AllWords(keys)| ==> IsCloudWord(AllWords(keys)[i])
  {
    if keys != [] {
      AllWordsAreCloudWords(keys[..|keys| - 1]);
      WordsAreCloudWords(keys[|keys| - 1]);
    }
  }

  /** `Math.floor((100 * generated) / total)` for a positive total. */
  function PercentDone(generated: nat, total: nat): (p: nat)
    requires total > 0
    ensures p * total <= 100 * generated < (p + 1) * total
    ensures generated <= total ==> p <= 100
  {
    (100 * generated) / total
  }

  /**
   * The percentage as JavaScript prints it; with no keys at all the
   * division gives `NaN` (0 / 0) or `Infinity`.
   */
  function PercentText(generated: nat, total: nat): string {
    if total > 0 then NatToString(PercentDone(generated, total))
    else if generated == 0 then "NaN"
    else "Infinity"
  }

  /** The first line logged. */
  function ProgressLine(generated: nat, total: nat): string {
    "Colors generated for " + NatToString(generated) + "/" + NatToString(total)
      + ", or " + PercentText(generated, total) + "%"
  }

  // ---------------------------------------------------------------------
  // logTopCounts
  // ---------------------------------------------------------------------

  predicate Distinct(s: seq<string>) {
    forall i, j :: 0 <= i < j < |s| ==> s[i] != s[j]
  }

  /**
   * `listed` is a valid choice of the (up to) three largest counts, largest
   * first: distinct counted keys, non-increasing, and no key left out has a
   * larger count than a listed one.
   */
  predicate IsTopListing(listed: seq<string>, counts: map<string, nat>) {
    && |listed| == (if |counts| < 3 then |counts| else 3)
    && (forall i :: 0 <= i < |listed| ==> listed[i] in counts)
    && Distinct(listed)
    && (forall i, j :: 0 <= i < j < |listed| ==> counts[listed[i]] >= counts[listed[j]])
    && (forall k, i :: k in counts && k !in listed && 0 <= i < |listed| ==> counts[k] <= counts[listed[i]])
  }

  /** `"key" (count)` */
  function Entry(key: string, count: nat): string {
    "\"" + key + "\" (" + NatToString(count) + ")"
  }

  /**
   * An entry reads back: a quote, the key, a quote and an opening
   * parenthesis, decimal digits whose value is the count, and a closing
   * parenthesis.
   */
  lemma EntryReadsBack(key: string, count: nat)
    ensures var e := Entry(key, count);
      && |e| >= |key| + 6
      && e[0] == '"' && e[1..|key| + 1] == key && e[|key| + 1..|key| + 4] == "\" ("
      && e[|e| - 1] == ')'
      && (forall i :: |key| + 4 <= i < |e| - 1 ==> '0' <= e[i] <= '9')
      && DecimalValue(e[|key| + 4..|e| - 1]) == count
  {
    var digits := NatToString(count);
    var e := "\"" + key + "\" (" + digits + ")";
    assert e == Entry(key, count);
    assert e[1..|key| + 1] == key;
    assert e[|key| + 1..|key| + 4] == "\" (";
    assert e[|key| + 4..|e| - 1] == digits;
    DecimalValueOfNatToString(count);
  }

  function Entries(keys: seq<string>, counts: map<string, nat>): (r: seq<string>)
    requires forall i :: 0 <= i < |keys| ==> keys[i] in counts
    ensures |r| == |keys|
    ensures forall i :: 0 <= i < |keys| ==> r[i] == Entry(keys[i], counts[keys[i]])
  {
    seq(|keys|, i requires 0 <= i < |keys| => Entry(keys[i], counts[keys[i]]))
  }

  /** `parts.join(", ")` */
  function JoinComma(parts: seq<string>): string {
    if |parts| == 0 then ""
    else if |parts| == 1 then parts[0]
    else parts[0] + ", " + JoinComma(parts[1..])
  }

  /** `s.reverse()` */
  function Reversed(s: seq<string>): (r: seq<string>)
    ensures |r| == |s|
    ensures forall i :: 0 <= i < |s| ==> r[i] == s[|s| - 1 - i]
  {
    if s == [] then [] else Reversed(s[1..]) + [s[0]]
  }

  /** The last `", "` of the message becomes `" and "`. */
  function ReplaceLastComma(message: string): string {
    var at := LastIndexOf(message, ", ");
    if at == -1 then message else message[..at] + " and " + message[at + 2..]
  }

  function Header(what: string): string {
    "The top " + what + " counts are "
  }

  /** The line `logTopCounts` logs for the keys it lists. */
  function TopCountsMessage(what: string, listed: seq<string>, counts: map<string, nat>): string
    requires forall i :: 0 <= i < |listed| ==> listed[i] in counts
  {
    ReplaceLastComma(Header(what) + JoinComma(Entries(listed, counts)))
  }

  /** Keys in non-decreasing order of their counts. */
  predicate SortedByCount(keys: seq<string>, counts: map<string, nat>)
    requires forall i :: 0 <= i < |keys| ==> keys[i] in counts
  {
    forall i, j :: 0 <= i < j < |keys| ==> counts[keys[i]] <= counts[keys[j]]
  }

  /** Position `i` of `s` with `k` inserted at position `at`. */
  lemma InsertedAt(s: seq<string>, at: nat, k: string, i: nat)
    requires at <= |s| && i <= |s|
    ensures (s[..at] + [k] + s[at..])[i] == if i < at then s[i] else if i == at then k else s[i - 1]
  {
  }

  /** Inserting a key between the counts not larger and the counts larger keeps the order. */
  lemma InsertKeepsOrder(sorted: seq<string>, at: nat, k: string, counts: map<string, nat>)
    requires at <= |sorted| && k in counts
    requires forall i :: 0 <= i < |sorted| ==> sorted[i] in counts
    requires SortedByCount(sorted, counts)
    requires forall j :: 0 <= j < at ==> counts[sorted[j]] <= counts[k]
    requires at < |sorted| ==> counts[sorted[at]] > counts[k]
    ensures forall i :: 0 <= i < |sorted| + 1 ==> (sorted[..at] + [k] + sorted[at..])[i] in counts
    ensures SortedByCount(sorted[..at] + [k] + sorted[at..], counts)
  {
    var r := sorted[..at] + [k] + sorted[at..];
    forall i | 0 <= i < |r| ensures r[i] in counts {
      InsertedAt(sorted, at, k, i);
    }
    forall i, j | 0 <= i < j < |r| ensures counts[r[i]] <= counts[r[j]] {
      InsertedAt(sorted, at, k, i);
      InsertedAt(sorted, at, k, j);
      if i == at {
        assert counts[sorted[at]] <= counts[sorted[j - 1]];
      }
    }
  }

  /** Inserting a new key keeps the keys distinct. */
  lemma InsertKeepsDistinct(sorted: seq<string>, at: nat, k: string)
    requires at <= |sorted| && k !in sorted && Distinct(sorted)
    ensures Distinct(sorted[..at] + [k] + sorted[at..])
  {
    var r := sorted[..at] + [k] + sorted[at..];
    forall i, j | 0 <= i < j < |r| ensures r[i] != r[j] {
      InsertedAt(sorted, at, k, i);
      InsertedAt(sorted, at, k, j);
    }
  }

  /**
   * One step of the sort: `k` goes in after the keys whose count is not
   * larger than its own.
   */
  method InsertByCount(sorted: seq<string>, k: string, counts: map<string, nat>) returns (r: seq<string>)
    requires forall i :: 0 <= i < |sorted| ==> sorted[i] in counts
    requires k in counts && k !in sorted
    requires Distinct(sorted) && SortedByCount(sorted, counts)
    ensures |r| == |sorted| + 1
    ensures forall x :: x in r <==> x in sorted || x == k
    ensures forall i :: 0 <= i < |r| ==> r[i] in counts
    ensures Distinct(r) && SortedByCount(r, counts)
  {
    var at := 0;
    while at < |sorted| && counts[sorted[at]] <= counts[k]
      invariant 0 <= at <= |sorted|
      invariant forall j :: 0 <= j < at ==> counts[sorted[j]] <= counts[k]
    {
      at := at + 1;
    }
    InsertKeepsOrder(sorted, at, k, counts);
    InsertKeepsDistinct(sorted, at, k);
    r := sorted[..at] + [k] + sorted[at..];
    assert sorted == sorted[..at] + sorted[at..];
  }

  /**
   * `keys.sort((a, b) => counts[a] - counts[b])` over the keys of the
   * tally: the keys in non-decreasing order of their counts, built by
   * inserting one key at a time.
   */
  method SortKeysByCount(counts: map<string, nat>) returns (sorted: seq<string>)
    ensures |sorted| == |counts|
    ensures forall k :: k in sorted <==> k in counts
    ensures Distinct(sorted)
    ensures forall i :: 0 <= i < |sorted| ==> sorted[i] in counts
    ensures SortedByCount(sorted, counts)
  {
    sorted := [];
    var remaining := counts.Keys;
    while remaining != {}
      invariant remaining <= counts.Keys
      invariant |sorted| + |remaining| == |counts|
      invariant forall k :: k in sorted <==> k in counts && k !in remaining
      invariant forall i :: 0 <= i < |sorted| ==> sorted[i] in counts
      invariant Distinct(sorted) && SortedByCount(sorted, counts)
      decreases |remaining|
    {
      var k :| k in remaining;
      sorted := InsertByCount(sorted, k, counts);
      remaining := remaining - {k};
    }
  }

  /**
   * The last (up to) three keys of a sorted key list, reversed, are a valid
   * choice of top keys.
   */
  lemma TopOfSorted(keys: seq<string>, counts: map<string, nat>)
    requires |keys| == |counts|
    requires forall k :: k in keys <==> k in counts
    requires Distinct(keys)
    requires forall i :: 0 <= i < |keys| ==> keys[i] in counts
    requires SortedByCount(keys, counts)
    ensures IsTopListing(Reversed(keys[if |keys| >= 3 then |keys| - 3 else 0..]), counts)
  {
    var start := if |keys| >= 3 then |keys| - 3 else 0;
    var listed := Reversed(keys[start..]);
    ReversedTail(keys, start);
    TailDistinctAndOrdered(keys, counts, start, listed);
    TailIsMaximal(keys, counts, start, listed);
  }

  /** The tail of `keys` from `start`, reversed, holds the last key first. */
  lemma ReversedTail(keys: seq<string>, start: nat)
    requires start <= |keys|
    ensures |Reversed(keys[start..])| == |keys| - start
    ensures forall i :: 0 <= i < |keys| - start ==> Reversed(keys[start..])[i] == keys[|keys| - 1 - i]
  {
    var top := keys[start..];
    forall i | 0 <= i < |keys| - start ensures Reversed(top)[i] == keys[|keys| - 1 - i] {
      assert top[|top| - 1 - i] == keys[|keys| - 1 - i];
    }
  }

  /** The tail of a sorted, distinct key list, read backwards, is distinct and non-increasing. */
  lemma TailDistinctAndOrdered(keys: seq<string>, counts: map<string, nat>, start: nat, listed: seq<string>)
    requires Distinct(keys)
    requires forall i :: 0 <= i < |keys| ==> keys[i] in counts
    requires SortedByCount(keys, counts)
    requires start <= |keys| && |listed| == |keys| - start
    requires forall i :: 0 <= i < |listed| ==> listed[i] == keys[|keys| - 1 - i]
    ensures forall i :: 0 <= i < |listed| ==> listed[i] in counts
    ensures Distinct(listed)
    ensures forall i, j :: 0 <= i < j < |listed| ==> counts[listed[i]] >= counts[listed[j]]
  {
    forall i, j | 0 <= i < j < |listed|
      ensures listed[i] != listed[j] && counts[listed[i]] >= counts[listed[j]]
    {
      assert listed[i] == keys[|keys| - 1 - i] && listed[j] == keys[|keys| - 1 - j];
    }
  }

  /** A key left out of the tail of a sorted list has a count no larger than any key in it. */
  lemma TailIsMaximal(keys: seq<string>, counts: map<string, nat>, start: nat, listed: seq<string>)
    requires forall k :: k in keys <==> k in counts
    requires forall i :: 0 <= i < |keys| ==> keys[i] in counts
    requires SortedByCount(keys, counts)
    requires start <= |keys| && |listed| == |keys| - start
    requires forall i :: 0 <= i < |listed| ==> listed[i] == keys[|keys| - 1 - i]
    ensures forall k, i :: k in counts && k !in listed && 0 <= i < |listed| ==> counts[k] <= counts[listed[i]]
  {
    forall j | start <= j < |keys| ensures keys[j] in listed {
      assert listed[|keys| - 1 - j] == keys[j];
    }
    forall k, i | k in counts && k !in listed && 0 <= i < |listed|
      ensures counts[k] <= counts[listed[i]]
    {
      var j :| 0 <= j < |keys| && keys[j] == k;
      assert j < start;
      assert listed[i] == keys[|keys| - 1 - i];
    }
  }

  /** `line` is what `logTopCounts` logs for some valid choice of top keys. */
  ghost predicate DescribesTopCounts(line: string, what: string, counts: map<string, nat>) {
    exists listed :: IsTopListing(listed, counts) && line == TopCountsMessage(what, listed, counts)
  }

  /**
   * `logTopCounts`: sorts the keys by count, lists the last three largest
   * first as `"key" (count)` joined by `", "`, and turns the last `", "`
   * of the whole line into `" and "`. Returns the line.
   */
  method LogTopCounts(what: string, counts: map<string, nat>) returns (message: string)
    ensures DescribesTopCounts(message, what, counts)
  {
    var keys := SortKeysByCount(counts);
    TopOfSorted(keys, counts);
    var listed := Reversed(keys[if |keys| >= 3 then |keys| - 3 else 0..]);
    message := Header(what) + JoinComma(Entries(listed, counts));
    var lastCommaIndex := LastIndexOf(message, ", ");
    if lastCommaIndex != -1 {
      var before := message[..lastCommaIndex];
      var after := message[lastCommaIndex + 2..];
      message := before + " and " + after;
    }
    assert IsTopListing(listed, counts) && message == TopCountsMessage(what, listed, counts);
  }

  // ---------------------------------------------------------------------
  // The shape of the top-counts line
  // ---------------------------------------------------------------------

  /** No `", "` starts where no comma follows. */
  lemma NoSeparatorFrom(s: string, p: nat)
    requires forall i :: p <= i < |s| ==> s[i] != ','
    ensures forall i :: p <= i ==> !OccursAt(s, ", ", i)
  {
    forall i | p <= i && 0 <= i <= |s| - 2 ensures !OccursAt(s, ", ", i) {
      assert s[i..i + 2][0] == s[i];
    }
  }

  /** When no comma follows the last `", "`, that is the one found. */
  lemma LastSeparator(a: string, b: string)
    requires ',' !in b
    ensures LastIndexOf(a + ", " + b, ", ") == |a|
  {
    var s := a + ", " + b;
    assert s[|a|..|a| + 2] == ", ";
    forall i | |a| + 1 <= i < |s| ensures s[i] != ',' {
      if i > |a| + 1 {
        assert s[i] == b[i - |a| - 2];
      }
    }
    NoSeparatorFrom(s, |a| + 1);
    var r := LastIndexOf(s, ", ");
    assert OccursAt(s, ", ", |a|);
    assert r >= |a|;
  }

  /** Without a comma there is no `", "`. */
  lemma NoSeparator(s: string)
    requires ',' !in s
    ensures LastIndexOf(s, ", ") == -1
  {
    NoSeparatorFrom(s, 0);
    var r := LastIndexOf(s, ", ");
    assert r == -1 || OccursAt(s, ", ", r);
  }

  /** A key without a comma gives an entry without a comma. */
  lemma EntryHasNoComma(key: string, count: nat)
    requires ',' !in key
    ensures ',' !in Entry(key, count)
  {
    var digits := NatToString(count);
    assert ',' !in digits by {
      forall i | 0 <= i < |digits| ensures digits[i] != ',' {
      }
    }
  }

  /**
   * The line reads as the documentation says, "x (14), y (9) and z (2)",
   * when neither `what` nor the keys hold a comma.
   */
  lemma TopCountsPhrase(what: string, listed: seq<string>, counts: map<string, nat>)
    requires forall i :: 0 <= i < |listed| ==> listed[i] in counts && ',' !in listed[i]
    requires ',' !in what
    requires |listed| <= 3
    ensures var m := TopCountsMessage(what, listed, counts);
      && (|listed| == 0 ==> m == Header(what))
      && (|listed| == 1 ==> m == Header(what) + Entry(listed[0], counts[listed[0]]))
      && (|listed| == 2 ==>
            m == Header(what) + Entry(listed[0], counts[listed[0]])
              + " and " + Entry(listed[1], counts[listed[1]]))
      && (|listed| == 3 ==>
            m == Header(what) + Entry(listed[0], counts[listed[0]])
              + ", " + Entry(listed[1], counts[listed[1]])
              + " and " + Entry(listed[2], counts[listed[2]]))
  {
    var es := Entries(listed, counts);
    var h := Header(what);
    assert ',' !in h by {
      assert h == "The top " + what + " counts are ";
    }
    forall i | 0 <= i < |listed| ensures ',' !in es[i] {
      EntryHasNoComma(listed[i], counts[listed[i]]);
    }
    if |listed| == 0 {
      assert h + JoinComma(es) == h;
      NoSeparator(h);
    } else if |listed| == 1 {
      assert ',' !in h + es[0];
      NoSeparator(h + es[0]);
    } else if |listed| == 2 {
      assert JoinComma(es) == es[0] + ", " + es[1] by {
        assert es[1..] == [es[1]];
      }
      assert h + JoinComma(es) == (h + es[0]) + ", " + es[1];
      ReplaceLastSeparator(h + es[0], es[1]);
    } else {
      assert JoinComma(es[1..]) == es[1] + ", " + es[2] by {
        assert es[1..][1..] == [es[2]];
      }
      assert h + JoinComma(es) == (h + es[0] + ", " + es[1]) + ", " + es[2];
      ReplaceLastSeparator(h + es[0] + ", " + es[1], es[2]);
    }
  }

  /** The `", "` before a comma-free tail is the one replaced by `" and "`. */
  lemma ReplaceLastSeparator(a: string, b: string)
    requires ',' !in b
    ensures ReplaceLastComma(a + ", " + b) == a + " and " + b
  {
    var s := a + ", " + b;
    LastSeparator(a, b);
    assert s[..|a|] == a;
    assert s[|a| + 2..] == b;
  }

  // ---------------------------------------------------------------------
  // warnAboutMissingCustomizations
  // ---------------------------------------------------------------------

  /** Tallying one more word bumps its count. */
  lemma TallySnoc(ws: seq<string>, w: string)
    ensures Tally(ws + [w]) == Bump(Tally(ws), w)
  {
    assert (ws + [w])[..|ws|] == ws;
  }

  lemma PrefixSnoc(done: seq<string>, words: seq<string>, j: nat)
    requires j < |words|
    ensures done + words[..j + 1] == (done + words[..j]) + [words[j]]
  {
    assert words[..j + 1] == words[..j] + [words[j]];
  }

  /** Looking at one more key adds it to the keys without a color when it has none. */
  lemma NotDoneStep(customizations: map<string, string>, keys: seq<string>, n: nat)
    requires n < |keys|
    ensures NotDone(customizations, keys[..n + 1])
      == NotDone(customizations, keys[..n]) + (if keys[n] in customizations then [] else [keys[n]])
  {
    assert keys[..n + 1][..n] == keys[..n];
  }

  /** The prefixes, suffixes and words of one more key. */
  lemma ViewsSnoc(keys: seq<string>, key: string)
    ensures Prefixes(keys + [key]) == Prefixes(keys) + [FirstSegment(key)]
    ensures Suffixes(keys + [key]) == Suffixes(keys) + [LastSegment(key)]
    ensures AllWords(keys + [key]) == AllWords(keys) + Words(key)
  {
    assert (keys + [key])[..|keys|] == keys;
  }

  /**
   * The inner loop of `warnAboutMissingCustomizations`: one more count
   * for each cloud word of a key.
   */
  method CountWords(counts: map<string, nat>, ghost done: seq<string>, words: seq<string>)
    returns (r: map<string, nat>)
    requires counts == Tally(done)
    ensures r == Tally(done + words)
  {
    r := counts;
    var j := 0;
    assert done + words[..0] == done;
    while j < |words|
      invariant 0 <= j <= |words|
      invariant r == Tally(done + words[..j])
    {
      TallySnoc(done + words[..j], words[j]);
      PrefixSnoc(done, words, j);
      r := Bump(r, words[j]);
      j := j + 1;
    }
    assert words[..|words|] == words;
  }


  /**
   * The counting loop of `warnAboutMissingCustomizations`: for every key
   * without a color, one more count for its prefix, its suffix and each
   * of its cloud words.
   */
  method CountNotDone(customizations: map<string, string>, allKeys: seq<string>)
    returns (notDonePrefixCounts: map<string, nat>, notDoneSuffixCounts: map<string, nat>,
             wordCloudCounts: map<string, nat>)
    ensures notDonePrefixCounts == Tally(Prefixes(NotDone(customizations, allKeys)))
    ensures notDoneSuffixCounts == Tally(Suffixes(NotDone(customizations, allKeys)))
    ensures wordCloudCounts == Tally(AllWords(NotDone(customizations, allKeys)))
  {
    notDonePrefixCounts := map[];
    notDoneSuffixCounts := map[];
    wordCloudCounts := map[];
    var n := 0;
    while n < |allKeys|
      invariant 0 <= n <= |allKeys|
      invariant notDonePrefixCounts == Tally(Prefixes(NotDone(customizations, allKeys[..n])))
      invariant notDoneSuffixCounts == Tally(Suffixes(NotDone(customizations, allKeys[..n])))
      invariant wordCloudCounts == Tally(AllWords(NotDone(customizations, allKeys[..n])))
    {
      var key := allKeys[n];
      NotDoneStep(customizations, allKeys, n);
      if key in customizations {
        assert NotDone(customizations, allKeys[..n + 1]) == NotDone(customizations, allKeys[..n]);
        n := n + 1;
        continue;
      }
      ghost var before := NotDone(customizations, allKeys[..n]);
      assert NotDone(customizations, allKeys[..n + 1]) == before + [key];
      ViewsSnoc(before, key);

      var prefix := FirstSegment(key);
      var suffix := LastSegment(key);
      TallySnoc(Prefixes(before), prefix);
      TallySnoc(Suffixes(before), suffix);
      notDonePrefixCounts := Bump(notDonePrefixCounts, prefix);
      notDoneSuffixCounts := Bump(notDoneSuffixCounts, suffix);
      assert notDonePrefixCounts == Tally(Prefixes(before) + [prefix]);
      assert notDoneSuffixCounts == Tally(Suffixes(before) + [suffix]);

      var words := SplitIntoCloudWords(key);
      wordCloudCounts := CountWords(wordCloudCounts, AllWords(before), words);
      assert wordCloudCounts == Tally(AllWords(before + [key]));
      n := n + 1;
    }
    assert allKeys[..|allKeys|] == allKeys;
  }

  /** What the three top-count lines are about. */
  const NotDonePrefixes := "not-done prefixes"
  const NotDoneSuffixes := "not-done suffixes"
  const NotDoneWords := "not-done word cloud words"

  /**
   * `warnAboutMissingCustomizations`: the four lines it logs, the progress
   * line, then the top prefixes, suffixes and cloud words among the keys
   * that got no color.
   */
  method WarnAboutMissingCustomizations(customizations: map<string, string>, allKeys: seq<string>)
    returns (progress: string, prefixLine: string, suffixLine: string, wordLine: string)
    ensures progress == ProgressLine(|customizations|, |allKeys|)
    ensures DescribesTopCounts(prefixLine, NotDonePrefixes, Tally(Prefixes(NotDone(customizations, allKeys))))
    ensures DescribesTopCounts(suffixLine, NotDoneSuffixes, Tally(Suffixes(NotDone(customizations, allKeys))))
    ensures DescribesTopCounts(wordLine, NotDoneWords, Tally(AllWords(NotDone(customizations, allKeys))))
  {
    var percentDone := PercentText(|customizations|, |allKeys|);
    progress := "Colors generated for " + NatToString(|customizations|) + "/" + NatToString(|allKeys|)
      + ", or " + percentDone + "%";
    var notDonePrefixCounts, notDoneSuffixCounts, wordCloudCounts := CountNotDone(customizations, allKeys);
    prefixLine := LogTopCounts(NotDonePrefixes, notDonePrefixCounts);
    suffixLine := LogTopCounts(NotDoneSuffixes, notDoneSuffixCounts);
    wordLine := LogTopCounts(NotDoneWords, wordCloudCounts);
  }
}
