/**
 * `splitIntoCloudWords`: cutting a color key such as `ape.bearCow` into
 * the lowercase words `ape`, `bear` and `cow`, for the word-cloud tally
 * of keys that got no color.
 */
module CloudWords {
  import opened JsStrings

  /**
   * The number of leading characters of `s` that are neither a dot nor an
   * uppercase letter.
   */
  function RunLength(s: string): (n: nat)
    ensures n <= |s|
  {
    if s == [] || s[0] == '.' || IsUpper(s[0]) then 0 else 1 + RunLength(s[1..])
  }

  /** The run is as long as possible: the character after it ends it. */
  lemma {:induction false} RunLengthSpec(s: string)
    ensures forall i :: 0 <= i < RunLength(s) ==> s[i] != '.' && !IsUpper(s[i])
    ensures RunLength(s) < |s| ==> s[RunLength(s)] == '.' || IsUpper(s[RunLength(s)])
  {
    if !(s == [] || s[0] == '.' || IsUpper(s[0])) {
      RunLengthSpec(s[1..]);
      forall i | 1 <= i < RunLength(s) ensures s[i] != '.' && !IsUpper(s[i]) {
        assert s[i] == s[1..][i - 1];
      }
    }
  }

  /**
   * The words of a key, defined word by word: dots separate words and are
   * dropped; a word starts at any other character (an uppercase letter
   * always starts one) and runs over the following characters that are
   * neither dots nor uppercase letters; each word is lowercased.
   */
  function Words(s: string): seq<string>
    decreases |s|
  {
    if s == [] then []
    else if s[0] == '.' then Words(s[1..])
    else
      var n := 1 + RunLength(s[1..]);
      [ToLower(s[..n])] + Words(s[n..])
  }

  /** The documented example: `"ape.bearCow"` gives `["ape", "bear", "cow"]`. */
  lemma WordsExample(key: string)
    requires key == "ape.bearCow"
    ensures Words(key) == ["ape", "bear", "cow"]
  {
    assert Words(key[4..]) == ["bear", "cow"] by {
      assert key[4..] == "bearCow";
      WordsExampleTail(key[4..]);
    }
    assert Words(key) == ["ape"] + Words(key[3..]) by {
      assert IsWordStart(key[..3]);
      FirstWord(key, 3);
      assert ToLower(key[..3]) == "ape";
    }
    assert Words(key[3..]) == Words(key[4..]) by {
      WordsSkipDot(key[3..]);
      assert key[3..][1..] == key[4..];
    }
  }

  lemma WordsExampleTail(tail: string)
    requires tail == "bearCow"
    ensures Words(tail) == ["bear", "cow"]
  {
    var last := tail[4..];
    WordsExampleLast(last);
    assert IsWordStart(tail[..4]);
    FirstWord(tail, 4);
    assert ToLower(tail[..4]) == "bear";
  }

  lemma WordsExampleLast(last: string)
    requires last == "Cow"
    ensures Words(last) == ["cow"]
  {
    assert IsWordStart(last[..3]);
    FirstWord(last, 3);
    assert last[3..] == [];
    assert ToLower(last[..3]) == "cow";
  }

  /** A leading dot is dropped. */
  lemma WordsSkipDot(s: string)
    requires s != [] && s[0] == '.'
    ensures Words(s) == Words(s[1..])
  {
  }

  /** The text of a word: a non-dot, then characters that are neither dots nor uppercase. */
  predicate IsWordStart(w: string) {
    |w| == 0 || (w[0] != '.' && forall k :: 0 < k < |w| ==> w[k] != '.' && !IsUpper(w[k]))
  }

  /**
   * A word that is ended by a dot, an uppercase letter or the end of the
   * key comes out as the first word.
   */
  lemma {:induction false} FirstWord(s: string, m: nat)
    requires 1 <= m <= |s| && IsWordStart(s[..m])
    requires m == |s| || s[m] == '.' || IsUpper(s[m])
    ensures Words(s) == [ToLower(s[..m])] + Words(s[m..])
  {
    assert s[..m][0] == s[0];
    var n := RunLength(s[1..]);
    RunLengthSpec(s[1..]);
    forall k | 0 <= k < m - 1 ensures s[1..][k] != '.' && !IsUpper(s[1..][k]) {
      assert s[1..][k] == s[..m][k + 1];
    }
    assert n == m - 1;
  }

  /** A word: not empty, without dots and without uppercase letters. */
  predicate IsCloudWord(w: string) {
    w != "" && '.' !in w && forall i :: 0 <= i < |w| ==> !IsUpper(w[i])
  }

  /** Every word is non-empty, holds no dot and no uppercase letter. */
  lemma {:induction false} WordsAreCloudWords(s: string)
    ensures forall i :: 0 <= i < |Words(s)| ==> IsCloudWord(Words(s)[i])
    decreases |s|
  {
    if s != [] {
      if s[0] == '.' {
        WordsAreCloudWords(s[1..]);
      } else {
        var n := 1 + RunLength(s[1..]);
        RunLengthSpec(s[1..]);
        WordsAreCloudWords(s[n..]);
        var w := ToLower(s[..n]);
        assert forall k :: 0 <= k < n ==> s[k] != '.' by {
          forall k | 0 <= k < n ensures s[k] != '.' {
            if k > 0 {
              assert s[k] == s[1..][k - 1];
            }
          }
        }
        assert '.' !in w by {
          forall k | 0 <= k < |w| ensures w[k] != '.' {
            assert w[k] == LowerChar(s[k]);
          }
        }
      }
    }
  }

  /** The key with its dots removed. */
  function RemoveDots(s: string): (r: string)
    ensures '.' !in r
  {
    if s == [] then [] else (if s[0] == '.' then [] else [s[0]]) + RemoveDots(s[1..])
  }

  lemma {:induction false} RemoveDotsOfDotFree(s: string, t: string)
    requires '.' !in s
    ensures RemoveDots(s + t) == s + RemoveDots(t)
  {
    if s != [] {
      assert s[0] in s;
      assert (s + t)[0] == s[0] && (s + t)[1..] == s[1..] + t;
      RemoveDotsOfDotFree(s[1..], t);
      calc {
        RemoveDots(s + t);
        [s[0]] + RemoveDots(s[1..] + t);
        [s[0]] + (s[1..] + RemoveDots(t));
        { assert s == [s[0]] + s[1..]; }
        s + RemoveDots(t);
      }
    } else {
      assert s + t == t;
    }
  }

  /** The words run together. */
  function Concat(words: seq<string>): string {
    if words == [] then "" else words[0] + Concat(words[1..])
  }

  /** The words together spell the key without its dots, lowercased. */
  lemma {:induction false} WordsSpellKey(s: string)
    ensures Concat(Words(s)) == ToLower(RemoveDots(s))
    decreases |s|
  {
    if s != [] {
      if s[0] == '.' {
        WordsSpellKey(s[1..]);
      } else {
        var n := 1 + RunLength(s[1..]);
        RunLengthSpec(s[1..]);
        WordsSpellKey(s[n..]);
        assert '.' !in s[..n] by {
          forall k | 0 <= k < n ensures s[..n][k] != '.' {
            if k > 0 {
              assert s[..n][k] == s[1..][k - 1];
            }
          }
        }
        assert s == s[..n] + s[n..];
        RemoveDotsOfDotFree(s[..n], s[n..]);
        ToLowerAppend(s[..n], RemoveDots(s[n..]));
        assert ([ToLower(s[..n])] + Words(s[n..]))[1..] == Words(s[n..]);
      }
    }
  }

  /**
   * The words of the key from `start` on, when a word (possibly empty)
   * runs from `start` to `i` and is ended there.
   */
  lemma WordsFrom(key: string, start: nat, i: nat)
    requires start <= i <= |key| && IsWordStart(key[start..i])
    requires i == |key| || key[i] == '.' || IsUpper(key[i])
    ensures Words(key[start..]) == (if start < i then [ToLower(key[start..i])] else []) + Words(key[i..])
  {
    if start < i {
      assert key[start..][..i - start] == key[start..i];
      FirstWord(key[start..], i - start);
      assert key[start..][i - start..] == key[i..];
    }
  }

  /**
   * The step of `splitIntoCloudWords` at a character that ends the word being
   * built: pushing that word (when it is not empty) keeps the words found so
   * far followed by the words from position `i` equal to all the words.
   */
  lemma EndWord(key: string, start: nat, i: nat, found: seq<string>, word: string)
    requires start <= i < |key| && IsWordStart(key[start..i])
    requires key[i] == '.' || IsUpper(key[i])
    requires word == ToLower(key[start..i])
    requires Words(key) == found + Words(key[start..])
    ensures Words(key) == (if word != "" then found + [word] else found) + Words(key[i..])
  {
    WordsFrom(key, start, i);
    if start < i {
      assert |word| == i - start;
      assert found + ([word] + Words(key[i..])) == (found + [word]) + Words(key[i..]);
    } else {
      assert word == "";
    }
  }

  /** A dot ends the word and is dropped. */
  lemma DotSkipped(key: string, i: nat)
    requires i < |key| && key[i] == '.'
    ensures Words(key[i..]) == Words(key[i + 1..])
  {
    WordsSkipDot(key[i..]);
    assert key[i..][1..] == key[i + 1..];
  }

  /** The step at a character that continues the word being built. */
  lemma ContinueWord(key: string, start: nat, i: nat, word: string)
    requires start <= i < |key| && IsWordStart(key[start..i])
    requires key[i] != '.' && !IsUpper(key[i])
    requires word == ToLower(key[start..i])
    ensures IsWordStart(key[start..i + 1])
    ensures ToLower(key[start..i + 1]) == word + [key[i]]
  {
    assert key[start..i + 1] == key[start..i] + [key[i]];
    ToLowerAppend(key[start..i], [key[i]]);
  }

  /** An uppercase letter starts a word of its own, lowercased. */
  lemma StartWord(key: string, i: nat)
    requires i < |key| && key[i] != '.'
    ensures IsWordStart(key[i..i + 1])
    ensures ToLower(key[i..i + 1]) == [LowerChar(key[i])]
  {
    assert key[i..i + 1] == [key[i]];
  }

  /**
   * `splitIntoCloudWords`: one pass over the characters, keeping the word
   * being built and pushing it when a dot or an uppercase letter ends it.
   */
  method SplitIntoCloudWords(key: string) returns (result: seq<string>)
    ensures result == Words(key)
  {
    result := [];
    var currentWord := "";
    ghost var start := 0;
    var i := 0;
    while i < |key|
      invariant 0 <= start <= i <= |key|
      invariant IsWordStart(key[start..i])
      invariant currentWord == ToLower(key[start..i])
      invariant Words(key) == result + Words(key[start..])
    {
      var ch := key[i];
      if ch == '.' {
        EndWord(key, start, i, result, currentWord);
        DotSkipped(key, i);
        if currentWord != "" {
          result := result + [currentWord];
        }
        currentWord := "";
        start := i + 1;
      } else if IsUpper(ch) {
        EndWord(key, start, i, result, currentWord);
        if currentWord != "" {
          result := result + [currentWord];
        }
        StartWord(key, i);
        currentWord := [LowerChar(ch)];
        start := i;
      } else {
        ContinueWord(key, start, i, currentWord);
        currentWord := currentWord + [ch];
      }
      i := i + 1;
    }
    WordsFrom(key, start, |key|);
    assert key[|key|..] == [];
    if currentWord != "" {
      result := result + [currentWord];
    }
  }
}
