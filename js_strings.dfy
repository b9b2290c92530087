/**
 * The JavaScript string built-ins that the theme generator relies on:
 * `startsWith`, `endsWith`, `includes`, `toLowerCase`, `split(".")`,
 * `lastIndexOf` and the decimal rendering of a non-negative integer.
 * Strings are sequences of characters; case mapping covers ASCII letters.
 */
module JsStrings {

  /** `s.startsWith(prefix)` */
  predicate StartsWith(s: string, prefix: string) {
    |prefix| <= |s| && s[..|prefix|] == prefix
  }

  /** `s.endsWith(suffix)` */
  predicate EndsWith(s: string, suffix: string) {
    |suffix| <= |s| && s[|s| - |suffix|..] == suffix
  }

  /** `t` occurs in `s` starting at position `i`. */
  predicate OccursAt(s: string, t: string, i: int) {
    0 <= i <= |s| - |t| && s[i..i + |t|] == t
  }

  /** `s.includes(t)`: `t` occurs at some position of `s`. */
  predicate Includes(s: string, t: string) {
    exists i :: 0 <= i <= |s| - |t| && OccursAt(s, t, i)
  }

  predicate IsUpper(c: char) {
    'A' <= c <= 'Z'
  }

  function LowerChar(c: char): (r: char)
    ensures !IsUpper(r)
    ensures IsUpper(c) ==> r as int == c as int + 32
    ensures !IsUpper(c) ==> r == c
  {
    if IsUpper(c) then (c as int + 32) as char else c
  }

  /** `s.toLowerCase()` restricted to ASCII letters. */
  function ToLower(s: string): (r: string)
    ensures |r| == |s|
    ensures forall i :: 0 <= i < |s| ==> r[i] == LowerChar(s[i])
  {
    seq(|s|, i requires 0 <= i < |s| => LowerChar(s[i]))
  }

  lemma {:induction false} ToLowerAppend(s: string, t: string)
    ensures ToLower(s + t) == ToLower(s) + ToLower(t)
  {
    assert |ToLower(s + t)| == |ToLower(s) + ToLower(t)|;
    forall i | 0 <= i < |s| + |t|
      ensures ToLower(s + t)[i] == (ToLower(s) + ToLower(t))[i]
    {
      if i < |s| {
        assert (s + t)[i] == s[i];
      } else {
        assert (s + t)[i] == t[i - |s|];
      }
    }
  }

  /** `parts.join(".")` */
  function Join(parts: seq<string>): (s: string)
  {
    if |parts| == 0 then ""
    else if |parts| == 1 then parts[0]
    else parts[0] + "." + Join(parts[1..])
  }

  /**
   * `s.split(".")`: the pieces between the dots, empty ones included,
   * so there is always at least one piece and joining them gives `s` back.
   */
  function Split(s: string): (parts: seq<string>)
    ensures |parts| >= 1
    ensures forall i :: 0 <= i < |parts| ==> '.' !in parts[i]
    ensures Join(parts) == s
  {
    if s == [] then [""]
    else
      var rest := Split(s[1..]);
      if s[0] == '.' then
        assert s == "." + Join(rest);
        [""] + rest
      else
        assert Join([[s[0]] + rest[0]] + rest[1..]) == [s[0]] + Join(rest) by {
          if |rest| > 1 {
            assert ([[s[0]] + rest[0]] + rest[1..])[1..] == rest[1..];
          }
        }
        [[s[0]] + rest[0]] + rest[1..]
  }

  /** `s.split(".")[0]`: the text before the first dot (all of `s` without one). */
  function FirstSegment(s: string): (p: string)
    ensures '.' !in p
    ensures StartsWith(s, p)
    ensures |p| == |s| || s[|p|] == '.'
  {
    var parts := Split(s);
    if |parts| > 1 then
      assert s == parts[0] + "." + Join(parts[1..]);
      parts[0]
    else
      parts[0]
  }

  lemma {:induction false} JoinLast(parts: seq<string>)
    requires |parts| >= 2
    ensures Join(parts) == Join(parts[..|parts| - 1]) + "." + parts[|parts| - 1]
    decreases |parts|
  {
    if |parts| > 2 {
      JoinLast(parts[1..]);
      assert parts[1..][..|parts| - 2] == parts[..|parts| - 1][1..];
    }
  }

  /** `s.split(".")[s.split(".").length - 1]`: the text after the last dot. */
  function LastSegment(s: string): (p: string)
    ensures '.' !in p
    ensures EndsWith(s, p)
    ensures |p| == |s| || s[|s| - |p| - 1] == '.'
  {
    var parts := Split(s);
    var last := parts[|parts| - 1];
    if |parts| > 1 then
      JoinLast(parts);
      assert s == Join(parts[..|parts| - 1]) + "." + last;
      assert s[|s| - |last|..] == last;
      last
    else
      last
  }

  /**
   * `s.lastIndexOf(t)` for a non-empty `t`: the largest position where `t`
   * occurs, or -1 when it does not occur at all.
   */
  function LastIndexOf(s: string, t: string): (r: int)
    requires |t| > 0
    ensures r == -1 || OccursAt(s, t, r)
    ensures forall i :: r < i ==> !OccursAt(s, t, i)
    decreases |s|
  {
    if |s| < |t| then -1
    else if s[|s| - |t|..] == t then |s| - |t|
    else
      var r := LastIndexOf(s[..|s| - 1], t);
      assert forall i :: OccursAt(s, t, i) && i < |s| - |t| ==> OccursAt(s[..|s| - 1], t, i) by {
        forall i | OccursAt(s, t, i) && i < |s| - |t| ensures OccursAt(s[..|s| - 1], t, i) {
          assert s[..|s| - 1][i..i + |t|] == s[i..i + |t|];
        }
      }
      assert r >= 0 ==> s[..|s| - 1][r..r + |t|] == s[r..r + |t|];
      r
  }

  /** The character of a decimal digit. */
  function DigitChar(d: nat): (c: char)
    requires d < 10
    ensures '0' <= c <= '9' && c as int - '0' as int == d
  {
    ('0' as int + d) as char
  }

  /** `String(n)` for a non-negative integer: its decimal digits. */
  function NatToString(n: nat): (s: string)
    ensures |s| >= 1
    ensures forall i :: 0 <= i < |s| ==> '0' <= s[i] <= '9'
    ensures s[0] == '0' ==> n == 0 && s == "0"
  {
    if n < 10 then [DigitChar(n)] else NatToString(n / 10) + [DigitChar(n % 10)]
  }

  /** The value of a string of decimal digits. */
  function DecimalValue(s: string): nat
    requires forall i :: 0 <= i < |s| ==> '0' <= s[i] <= '9'
  {
    if s == [] then 0
    else 10 * DecimalValue(s[..|s| - 1]) + (s[|s| - 1] as int - '0' as int)
  }

  /** Reading the decimal rendering back gives the number. */
  lemma {:induction false} DecimalValueOfNatToString(n: nat)
    ensures DecimalValue(NatToString(n)) == n
  {
    var s := NatToString(n);
    if n >= 10 {
      DecimalValueOfNatToString(n / 10);
      assert s[..|s| - 1] == NatToString(n / 10);
    } else {
      assert s[..|s| - 1] == [];
    }
  }
}
