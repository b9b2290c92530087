/**
 * The `Color` value type: an immutable RGB triple with a `#rrggbb` codec,
 * the HSL views derived from it (hue, saturation, lightness), a contrast
 * ratio computed from HSL lightness, and the HSL-to-RGB factory.
 *
 * Channels are JavaScript numbers. `Color.hsl` produces fractional
 * channels, so they are modelled as `real`; `toString` rounds them.
 */
module Colors {
  import opened JsStrings

  datatype Color = Color(r: real, g: real, b: real)

  /** The documented channel range, 0-255 each. */
  predicate InRange(c: Color) {
    0.0 <= c.r <= 255.0 && 0.0 <= c.g <= 255.0 && 0.0 <= c.b <= 255.0
  }

  /** Integer channels in 0..255, as `parse` produces them. */
  predicate IsByteColor(c: Color) {
    InRange(c) && c.r == c.r.Floor as real && c.g == c.g.Floor as real && c.b == c.b.Floor as real
  }

  // ---------------------------------------------------------------------
  // JavaScript number helpers

  /** `Math.round(x)`: the nearest integer, halves rounded up. */
  function Round(x: real): (n: int)
    ensures n as real - 0.5 <= x < n as real + 0.5
  {
    (x + 0.5).Floor
  }

  /** `Math.trunc(x)` */
  function Trunc(x: real): (n: int)
    ensures x >= 0.0 ==> n as real <= x < n as real + 1.0
    ensures x < 0.0 ==> n as real - 1.0 < x <= n as real
  {
    if x >= 0.0 then x.Floor else -((-x).Floor)
  }

  /** `x % 1` on numbers: the fractional part, carrying the sign of `x`. */
  function Frac(x: real): (r: real)
    ensures x >= 0.0 ==> 0.0 <= r < 1.0 && (x < 1.0 ==> r == x)
    ensures (x - r) == (x - r).Floor as real
  {
    x - Trunc(x) as real
  }

  /** `Math.abs(x)` */
  function Abs(x: real): (r: real)
    ensures r >= 0.0 && (r == x || r == -x)
  {
    if x < 0.0 then -x else x
  }

  // ---------------------------------------------------------------------
  // Hexadecimal digits

  predicate IsHexDigit(ch: char) {
    '0' <= ch <= '9' || 'a' <= ch <= 'f' || 'A' <= ch <= 'F'
  }

  predicate IsLowerHexDigit(ch: char) {
    '0' <= ch <= '9' || 'a' <= ch <= 'f'
  }

  /** The lowercase digit that `Number.prototype.toString(16)` writes. */
  function HexDigit(d: nat): (ch: char)
    requires d < 16
    ensures IsLowerHexDigit(ch)
  {
    if d < 10 then ('0' as int + d) as char else ('a' as int + d - 10) as char
  }

  /** The value `parseInt(_, 16)` gives a hex digit, either case. */
  function HexValue(ch: char): (d: nat)
    requires IsHexDigit(ch)
    ensures d < 16
    ensures IsLowerHexDigit(ch) ==> HexDigit(d) == ch
  {
    if ch <= '9' then ch as int - '0' as int
    else if ch <= 'F' then ch as int - 'A' as int + 10
    else ch as int - 'a' as int + 10
  }

  /** `n.toString(16)` for a non-negative integer. */
  function NatToHex(n: nat): (s: string)
    ensures |s| >= 1
  {
    if n < 16 then [HexDigit(n)] else NatToHex(n / 16) + [HexDigit(n % 16)]
  }

  /** `n.toString(16)` for any integer: a minus sign, then the digits. */
  function IntToHex(n: int): string {
    if n < 0 then "-" + NatToHex(-n) else NatToHex(n)
  }

  /** `s.padStart(2, "0")` */
  function PadStart2(s: string): string {
    if |s| >= 2 then s else seq(2 - |s|, _ => '0') + s
  }

  /** One channel of `toString`: round, write in base 16, pad to two characters. */
  function ChannelToHex(x: real): string {
    PadStart2(IntToHex(Round(x)))
  }

  /** A byte is written as exactly two lowercase digits, high digit first. */
  lemma ByteToHex(x: real)
    requires 0 <= Round(x) <= 255
    ensures ChannelToHex(x) == [HexDigit(Round(x) / 16), HexDigit(Round(x) % 16)]
  {
    var n := Round(x);
    if n < 16 {
      assert NatToHex(n) == [HexDigit(n)];
      assert HexDigit(0) == '0';
    } else {
      assert NatToHex(n / 16) == [HexDigit(n / 16)];
    }
  }

  // ---------------------------------------------------------------------
  // The hex codec: `parse` and `toString`

  /** What `parse` needs to read three channels: hex digits at positions 1 to 6. */
  predicate IsParsable(s: string) {
    |s| >= 7 && forall i :: 1 <= i < 7 ==> IsHexDigit(s[i])
  }

  /** What `toString` writes for a color in range: `#rrggbb`, lowercase. */
  predicate IsCanonicalHex(s: string) {
    |s| == 7 && s[0] == '#' && forall i :: 1 <= i < 7 ==> IsLowerHexDigit(s[i])
  }

  /** `parseInt(s.substring(i, i + 2), 16)` for two hex digits. */
  function HexPairAt(s: string, i: nat): (n: nat)
    requires i + 1 < |s| && IsHexDigit(s[i]) && IsHexDigit(s[i + 1])
    ensures n < 256
  {
    HexValue(s[i]) * 16 + HexValue(s[i + 1])
  }

  /** `Color.parse`: channels from positions 1-2, 3-4 and 5-6, read in base 16. */
  function Parse(s: string): (c: Color)
    requires IsParsable(s)
    ensures IsByteColor(c)
  {
    Color(HexPairAt(s, 1) as real, HexPairAt(s, 3) as real, HexPairAt(s, 5) as real)
  }

  /** `toString` writes a well-formed string whenever each channel rounds into 0..255. */
  predicate RoundsToByte(c: Color) {
    0 <= Round(c.r) <= 255 && 0 <= Round(c.g) <= 255 && 0 <= Round(c.b) <= 255
  }

  /** `Color.toString`: `#` and three zero-padded channels in base 16. */
  function ToString(c: Color): string {
    "#" + ChannelToHex(c.r) + ChannelToHex(c.g) + ChannelToHex(c.b)
  }

  /**
   * For channels that round into 0..255, `toString` gives `#rrggbb` with
   * lowercase digits, and each pair holds the rounded channel.
   */
  lemma ToStringWellFormed(c: Color)
    requires RoundsToByte(c)
    ensures IsCanonicalHex(ToString(c))
    ensures HexPairAt(ToString(c), 1) == Round(c.r)
    ensures HexPairAt(ToString(c), 3) == Round(c.g)
    ensures HexPairAt(ToString(c), 5) == Round(c.b)
  {
    ByteToHex(c.r);
    ByteToHex(c.g);
    ByteToHex(c.b);
    var s := ToString(c);
    assert s == ['#', HexDigit(Round(c.r) / 16), HexDigit(Round(c.r) % 16),
                 HexDigit(Round(c.g) / 16), HexDigit(Round(c.g) % 16),
                 HexDigit(Round(c.b) / 16), HexDigit(Round(c.b) % 16)];
    HexValueOfDigit(Round(c.r) / 16);
    HexValueOfDigit(Round(c.r) % 16);
    HexValueOfDigit(Round(c.g) / 16);
    HexValueOfDigit(Round(c.g) % 16);
    HexValueOfDigit(Round(c.b) / 16);
    HexValueOfDigit(Round(c.b) % 16);
  }

  lemma HexValueOfDigit(d: nat)
    requires d < 16
    ensures HexValue(HexDigit(d)) == d
  {
  }

  /** Channels that round into 0..255 come back rounded after a trip through the string. */
  lemma {:induction false} ParseToString(c: Color)
    requires RoundsToByte(c)
    ensures IsParsable(ToString(c))
    ensures Parse(ToString(c)) == Color(Round(c.r) as real, Round(c.g) as real, Round(c.b) as real)
  {
    ToStringWellFormed(c);
  }

  /** `parse(c.toString())` gives back the same r, g and b for integer channels in 0..255. */
  lemma {:induction false} ParseToStringExact(c: Color)
    requires IsByteColor(c)
    ensures IsParsable(ToString(c))
    ensures Parse(ToString(c)) == c
  {
    assert Round(c.r) == c.r.Floor && Round(c.g) == c.g.Floor && Round(c.b) == c.b.Floor;
    ParseToString(c);
  }

  /** A lowercase `#rrggbb` string is rebuilt exactly by `toString` after `parse`. */
  lemma {:induction false} ToStringParse(s: string)
    requires IsCanonicalHex(s)
    ensures ToString(Parse(s)) == s
  {
    var c := Parse(s);
    HexPairRoundTrip(s, 1);
    HexPairRoundTrip(s, 3);
    HexPairRoundTrip(s, 5);
    HashAndThreePairs(s);
  }

  lemma HashAndThreePairs(s: string)
    requires |s| == 7 && s[0] == '#'
    ensures s == "#" + s[1..3] + s[3..5] + s[5..7]
  {
    assert s == [s[0]] + s[1..3] + s[3..5] + s[5..7];
  }

  /** Two lowercase digits read as a byte are written back as the same two digits. */
  lemma HexPairRoundTrip(s: string, j: nat)
    requires j + 1 < |s| && IsLowerHexDigit(s[j]) && IsLowerHexDigit(s[j + 1])
    ensures ChannelToHex(HexPairAt(s, j) as real) == s[j..j + 2]
  {
    var n := HexPairAt(s, j);
    assert Round(n as real) == n;
    assert n / 16 == HexValue(s[j]) && n % 16 == HexValue(s[j + 1]);
    ByteToHex(n as real);
  }

  /** `parse` ignores character 0 and everything after character 6. */
  lemma ParseReadsOnlyPositionsOneToSix(s: string, t: string)
    requires IsParsable(s) && IsParsable(t)
    requires s[1..7] == t[1..7]
    ensures Parse(s) == Parse(t)
  {
    assert forall i :: 1 <= i < 7 ==> s[i] == s[1..7][i - 1] == t[1..7][i - 1] == t[i];
  }

  // ---------------------------------------------------------------------
  // Derived views

  /** `Math.max(r, g, b)` */
  function Max(c: Color): (m: real)
    ensures m == c.r || m == c.g || m == c.b
    ensures m >= c.r && m >= c.g && m >= c.b
  {
    if c.r >= c.g && c.r >= c.b then c.r else if c.g >= c.b then c.g else c.b
  }

  /** `Math.min(r, g, b)` */
  function Min(c: Color): (m: real)
    ensures m == c.r || m == c.g || m == c.b
    ensures m <= c.r && m <= c.g && m <= c.b
  {
    if c.r <= c.g && c.r <= c.b then c.r else if c.g <= c.b then c.g else c.b
  }

  /** HSL lightness: the midpoint of the largest and smallest channel, scaled to 0-1. */
  function Lightness(c: Color): (l: real)
    ensures Min(c) / 255.0 <= l <= Max(c) / 255.0
    ensures InRange(c) ==> 0.0 <= l <= 1.0
    ensures l * 510.0 == Max(c) + Min(c)
  {
    (Max(c) + Min(c)) / 2.0 / 255.0
  }

  lemma QuotientBounds(a: real, d: real)
    requires d > 0.0 && -d <= a <= d
    ensures -1.0 <= a / d <= 1.0
  {
    var q := a / d;
    assert q * d == a;
  }

  /**
   * HSL hue in degrees: 0 for a grey; otherwise in [0, 360), in the
   * sector of the channel that is largest (red first, then green).
   */
  function Hue(c: Color): (h: real)
    ensures Max(c) == Min(c) ==> h == 0.0
    ensures Max(c) != Min(c) ==> 0.0 <= h < 360.0
    ensures Max(c) != Min(c) && Max(c) == c.r ==> h <= 60.0 || h >= 300.0
    ensures Max(c) != c.r && Max(c) == c.g ==> 60.0 <= h <= 180.0
    ensures Max(c) != c.r && Max(c) != c.g ==> 180.0 <= h <= 300.0
  {
    var lo := Min(c);
    var hi := Max(c);
    if lo == hi then 0.0
    else
      QuotientBounds(c.g - c.b, hi - lo);
      QuotientBounds(c.b - c.r, hi - lo);
      QuotientBounds(c.r - c.g, hi - lo);
      var sector :=
        if hi == c.r then (c.g - c.b) / (hi - lo)
        else if hi == c.g then 2.0 + (c.b - c.r) / (hi - lo)
        else 4.0 + (c.r - c.g) / (hi - lo);
      var degrees := sector * 60.0;
      if degrees < 0.0 then degrees + 360.0 else degrees
  }

  /**
   * HSL saturation: 0 for black and for greys; otherwise the channel
   * spread relative to what the lightness allows, in (0, 1].
   */
  function Saturation(c: Color): (s: real)
    requires InRange(c)
    ensures Lightness(c) == 0.0 || Max(c) == Min(c) ==> s == 0.0
    ensures Max(c) != Min(c) ==> 0.0 < s <= 1.0
  {
    if Lightness(c) == 0.0 then 0.0
    else
      var d := (Max(c) - Min(c)) / 255.0;
      if d == 0.0 then 0.0
      else
        SaturationBound(Max(c), Min(c));
        d / (1.0 - Abs(2.0 * Lightness(c) - 1.0))
  }

  lemma SaturationBound(hi: real, lo: real)
    requires 0.0 <= lo < hi <= 255.0
    ensures 1.0 - Abs(2.0 * ((hi + lo) / 2.0 / 255.0) - 1.0) > 0.0
    ensures 0.0 < ((hi - lo) / 255.0) / (1.0 - Abs(2.0 * ((hi + lo) / 2.0 / 255.0) - 1.0)) <= 1.0
  {
    var den := 1.0 - Abs(2.0 * ((hi + lo) / 2.0 / 255.0) - 1.0);
    var num := (hi - lo) / 255.0;
    if hi + lo <= 255.0 {
      assert den == (hi + lo) / 255.0;
    } else {
      assert den == (510.0 - hi - lo) / 255.0;
    }
    assert 0.0 < num <= den;
    var q := num / den;
    assert q * den == num;
  }

  /**
   * The contrast ratio between two colors, taken from HSL lightness (not
   * luminance): brighter plus 0.05 over darker plus 0.05, from 1 to 21.
   */
  function Contrast(a: Color, other: Color): (ratio: real)
    requires InRange(a) && InRange(other)
    ensures 1.0 <= ratio <= 21.0
    ensures ratio == 1.0 <==> Lightness(a) == Lightness(other)
  {
    var lightness1 := Lightness(a);
    var lightness2 := Lightness(other);
    var brightest := if lightness1 >= lightness2 then lightness1 else lightness2;
    var darkest := if lightness1 <= lightness2 then lightness1 else lightness2;
    ContrastBounds(brightest, darkest);
    (brightest + 0.05) / (darkest + 0.05)
  }

  lemma ContrastBounds(brightest: real, darkest: real)
    requires 0.0 <= darkest <= brightest <= 1.0
    ensures 1.0 <= (brightest + 0.05) / (darkest + 0.05) <= 21.0
    ensures (brightest + 0.05) / (darkest + 0.05) == 1.0 <==> brightest == darkest
  {
    var q := (brightest + 0.05) / (darkest + 0.05);
    assert q * (darkest + 0.05) == brightest + 0.05;
    DivAtLeastOne(brightest + 0.05, darkest + 0.05);
    DivAtMost(brightest + 0.05, darkest + 0.05, 21.0);
  }

  lemma DivAtLeastOne(x: real, y: real)
    requires 0.0 < y <= x
    ensures x / y >= 1.0
  {
    var q := x / y;
    assert q * y == x;
  }

  lemma DivAtMost(x: real, y: real, k: real)
    requires 0.0 < y && x <= k * y
    ensures x / y <= k
  {
    var q := x / y;
    assert q * y == x;
  }

  /** The contrast ratio does not depend on the order of the two colors. */
  lemma ContrastSymmetric(a: Color, b: Color)
    requires InRange(a) && InRange(b)
    ensures Contrast(a, b) == Contrast(b, a)
  {
  }

  // ---------------------------------------------------------------------
  // HSL to RGB

  /**
   * The inner `toRgbComponent` of `Color.hsl`, as written: its third case
   * reads `temporaryR` (passed as `tR`) instead of its own argument `x`.
   */
  function ToRgbComponent(x: real, tR: real, t1: real, t2: real): real {
    if 6.0 * x < 1.0 then t2 + (t1 - t2) * 6.0 * x
    else if 2.0 * x < 1.0 then t1
    else if 3.0 * x < 2.0 then t2 + (t1 - t2) * (0.666 - tR) * 6.0
    else t2
  }

  /** The two interpolation anchors of `Color.hsl`, `temporary1` then `temporary2`. */
  function Anchors(saturation: real, lightness: real): (real, real) {
    var t1 :=
      if lightness < 0.5 then lightness * (1.0 + saturation)
      else lightness + saturation - lightness * saturation;
    (t1, 2.0 * lightness - t1)
  }

  /** For saturation and lightness in [0, 1], `0 <= temporary2 <= temporary1 <= 1`. */
  lemma AnchorsBounds(saturation: real, lightness: real)
    requires 0.0 <= saturation <= 1.0 && 0.0 <= lightness <= 1.0
    ensures 0.0 <= Anchors(saturation, lightness).1 <= Anchors(saturation, lightness).0 <= 1.0
  {
    var t1 := Anchors(saturation, lightness).0;
    if lightness < 0.5 {
      assert t1 == Lerp(lightness, 2.0 * lightness, saturation);
      LerpBounds(lightness, 2.0 * lightness, saturation);
    } else {
      assert t1 == Lerp(lightness, 1.0, saturation);
      LerpBounds(lightness, 1.0, saturation);
    }
  }

  /**
   * `Color.hsl(hue, saturation, lightness)` as written, with hue in
   * degrees: a grey when saturation is 0, otherwise the three-way
   * interpolation with the constants 0.333 and 0.666.
   */
  function Hsl(hue: real, saturation: real, lightness: real): Color {
    if saturation == 0.0 then
      Color(lightness * 255.0, lightness * 255.0, lightness * 255.0)
    else
      var (t1, t2) := Anchors(saturation, lightness);
      var h := hue / 360.0;
      var tR := Frac(h + 0.333);
      var tG := h;
      var tB := Frac(h + 1.0 - 0.333);
      Color(ToRgbComponent(tR, tR, t1, t2) * 255.0,
            ToRgbComponent(tG, tR, t1, t2) * 255.0,
            ToRgbComponent(tB, tR, t1, t2) * 255.0)
  }

  /**
   * With saturation 0, `hsl` gives the grey whose three channels are
   * `lightness * 255`, whatever the hue; its own hue and saturation are 0
   * and its lightness is the one asked for.
   */
  lemma HslGrey(hue: real, lightness: real)
    requires 0.0 <= lightness <= 1.0
    ensures var c := Hsl(hue, 0.0, lightness);
      && c.r == c.g == c.b == lightness * 255.0
      && Hue(c) == 0.0 && Saturation(c) == 0.0 && Lightness(c) == lightness
  {
  }

  /**
   * The scenario of the HSL unit test, in exact arithmetic:
   * `hsl(42, 0.3, 0.7)` prints as `#c9bc9c`, has lightness 0.7 and hue 42.
   */
  lemma HslTestScenario()
    ensures var c := Hsl(42.0, 0.3, 0.7);
      && InRange(c)
      && ToString(c) == "#c9bc9c"
      && Lightness(c) == 0.7
      && Hue(c) == 42.0
  {
    var c := Hsl(42.0, 0.3, 0.7);
    assert c == Color(201.45, 187.68, 155.55);
    assert Round(c.r) == 201 && Round(c.g) == 188 && Round(c.b) == 156;
    ByteToHex(c.r);
    ByteToHex(c.g);
    ByteToHex(c.b);
  }

  /**
   * Line 69 reads `temporaryR` where its own argument is meant: for
   * `hsl(200, 1, 0.5)` the green channel comes out negative, and the
   * string written for the color is not `#rrggbb`.
   */
  lemma HslGreenChannelCounterexample()
    ensures var c := Hsl(200.0, 1.0, 0.5);
      && c.g < 0.0
      && !RoundsToByte(c)
      && ToString(c) == "#00-155ff"
  {
    var c := Hsl(200.0, 1.0, 0.5);
    assert Frac(200.0 / 360.0 + 0.333) == 7997.0 / 9000.0;
    assert Frac(200.0 / 360.0 + 1.0 - 0.333) == 2003.0 / 9000.0;
    assert c == Color(0.0, -340.51, 255.0);
    assert Round(c.g) == -341;
    assert NatToHex(341) == "155" by {
      assert NatToHex(21) == "15" by {
        assert NatToHex(1) == "1";
      }
    }
    ByteToHex(c.r);
    ByteToHex(c.b);
  }

  /**
   * Reading its own argument at line 69 is not enough on its own: with the
   * constant 0.666 kept, the green channel of `hsl(239.9, 1, 0.5)` rounds
   * to -1.
   */
  lemma OwnArgumentAloneIsNotEnough()
    ensures var (t1, t2) := Anchors(1.0, 0.5);
      var h := 239.9 / 360.0;
      Round(ToRgbComponent(h, h, t1, t2) * 255.0) == -1
  {
    var h := 239.9 / 360.0;
    assert Anchors(1.0, 0.5) == (1.0, 0.0);
    assert ToRgbComponent(h, h, 1.0, 0.0) * 255.0 == -0.595;
  }

  lemma MulNonneg(a: real, b: real)
    requires 0.0 <= a && 0.0 <= b
    ensures 0.0 <= a * b
  {
  }

  /**
   * Where the as-written component can go: between the anchors in its
   * first, second and last cases, and in the third case within the bounds
   * that `(0.666 - temporaryR) * 6` in (-2.004, 3.996] allows.
   */
  lemma ComponentAsWrittenBounds(x: real, tR: real, t1: real, t2: real)
    requires 0.0 <= x < 1.0 && 0.0 <= tR < 1.0 && t2 <= t1
    ensures t2 - 2.004 * (t1 - t2) <= ToRgbComponent(x, tR, t1, t2) <= t2 + 3.996 * (t1 - t2)
  {
    var d := t1 - t2;
    if 6.0 * x < 1.0 {
      MulNonneg(d, 6.0 * x);
      MulNonneg(d, 1.0 - 6.0 * x);
      assert ToRgbComponent(x, tR, t1, t2) == t2 + d * (6.0 * x);
    } else if 2.0 * x >= 1.0 && 3.0 * x < 2.0 {
      var f := (0.666 - tR) * 6.0;
      assert -2.004 < f <= 3.996;
      MulNonneg(d, f + 2.004);
      MulNonneg(d, 3.996 - f);
      assert ToRgbComponent(x, tR, t1, t2) == t2 + d * f;
    }
  }

  /**
   * The foreground colors `hsl` is asked for, saturation 0.1 and lightness
   * 0.1 or 0.9, stay in range as written: the anchors are 0.02 apart, so
   * even the third case of line 69 cannot leave 0..255.
   */
  lemma HslForegroundInRange(hue: real, lightness: real)
    requires 0.0 <= hue < 360.0 && (lightness == 0.1 || lightness == 0.9)
    ensures InRange(Hsl(hue, 0.1, lightness))
    ensures RoundsToByte(Hsl(hue, 0.1, lightness))
  {
    var (t1, t2) := Anchors(0.1, lightness);
    assert t1 - t2 == 0.02 && 0.09 <= t2 <= 0.89;
    var h := hue / 360.0;
    var tR := Frac(h + 0.333);
    var tB := Frac(h + 1.0 - 0.333);
    ComponentAsWrittenBounds(tR, tR, t1, t2);
    ComponentAsWrittenBounds(h, tR, t1, t2);
    ComponentAsWrittenBounds(tB, tR, t1, t2);
    InRangeRoundsToByte(Hsl(hue, 0.1, lightness));
  }

  /** Linear interpolation from `lo` to `hi` by the fraction `f`. */
  function Lerp(lo: real, hi: real, f: real): real {
    lo + (hi - lo) * f
  }

  lemma LerpBounds(lo: real, hi: real, f: real)
    requires lo <= hi && 0.0 <= f <= 1.0
    ensures lo <= Lerp(lo, hi, f) <= hi
  {
    var d := hi - lo;
    assert 0.0 <= d * f <= d * 1.0;
    assert Lerp(lo, hi, f) == lo + d * f;
  }

  /** `toRgbComponent` as intended: every case reads its own argument, with exact thirds. */
  function ToRgbComponentIntended(x: real, t1: real, t2: real): real {
    if 6.0 * x < 1.0 then Lerp(t2, t1, 6.0 * x)
    else if 2.0 * x < 1.0 then t1
    else if 3.0 * x < 2.0 then Lerp(t2, t1, (2.0 / 3.0 - x) * 6.0)
    else t2
  }

  /**
   * On [0, 1) the intended component stays between the two anchors; it is
   * `temporary1` on [1/6, 1/2) and `temporary2` on [2/3, 1).
   */
  lemma ComponentIntendedBounds(x: real, t1: real, t2: real)
    requires 0.0 <= x < 1.0 && t2 <= t1
    ensures t2 <= ToRgbComponentIntended(x, t1, t2) <= t1
    ensures 1.0 / 6.0 <= x < 0.5 ==> ToRgbComponentIntended(x, t1, t2) == t1
    ensures 2.0 / 3.0 <= x ==> ToRgbComponentIntended(x, t1, t2) == t2
  {
    if 6.0 * x < 1.0 {
      LerpBounds(t2, t1, 6.0 * x);
    } else if 2.0 * x >= 1.0 && 3.0 * x < 2.0 {
      LerpBounds(t2, t1, (2.0 / 3.0 - x) * 6.0);
    }
  }

  /** `(h + d) % 1` for `h` and `d` in [0, 1). */
  lemma FracOfSum(h: real, d: real)
    requires 0.0 <= h < 1.0 && 0.0 <= d < 1.0
    ensures Frac(h + d) == if h + d < 1.0 then h + d else h + d - 1.0
  {
    if h + d >= 1.0 {
      assert Trunc(h + d) == 1;
    }
  }

  /**
   * The three hue parameters `h + 1/3`, `h` and `h + 2/3` (each taken
   * modulo 1) are a third apart, so one of them lies in [1/6, 1/2) and one
   * in [2/3, 1): one channel is `temporary1` and one is `temporary2`.
   */
  lemma ThirdsReachAnchors(h: real, t1: real, t2: real)
    requires 0.0 <= h < 1.0 && t2 <= t1
    ensures var r := ToRgbComponentIntended(Frac(h + 1.0 / 3.0), t1, t2);
      var g := ToRgbComponentIntended(h, t1, t2);
      var b := ToRgbComponentIntended(Frac(h + 1.0 - 1.0 / 3.0), t1, t2);
      && t2 <= r <= t1 && t2 <= g <= t1 && t2 <= b <= t1
      && (r == t1 || g == t1 || b == t1)
      && (r == t2 || g == t2 || b == t2)
  {
    var tR := Frac(h + 1.0 / 3.0);
    var tB := Frac(h + 1.0 - 1.0 / 3.0);
    FracOfSum(h, 1.0 / 3.0);
    FracOfSum(h, 2.0 / 3.0);
    assert h + 1.0 - 1.0 / 3.0 == h + 2.0 / 3.0;
    ComponentIntendedBounds(tR, t1, t2);
    ComponentIntendedBounds(h, t1, t2);
    ComponentIntendedBounds(tB, t1, t2);
  }

  /** `Color.hsl` as intended: the same algorithm with exact thirds and line 69 reading its argument. */
  function HslIntended(hue: real, saturation: real, lightness: real): Color {
    if saturation == 0.0 then
      Color(lightness * 255.0, lightness * 255.0, lightness * 255.0)
    else
      var (t1, t2) := Anchors(saturation, lightness);
      var h := hue / 360.0;
      var tR := Frac(h + 1.0 / 3.0);
      var tG := h;
      var tB := Frac(h + 1.0 - 1.0 / 3.0);
      Color(ToRgbComponentIntended(tR, t1, t2) * 255.0,
            ToRgbComponentIntended(tG, t1, t2) * 255.0,
            ToRgbComponentIntended(tB, t1, t2) * 255.0)
  }

  /**
   * For a hue in [0, 360) and saturation and lightness in [0, 1], the
   * intended conversion keeps every channel in 0-255, so the color prints
   * as `#rrggbb`, and its HSL lightness is the lightness asked for.
   */
  lemma HslIntendedInRange(hue: real, saturation: real, lightness: real)
    requires 0.0 <= hue < 360.0 && 0.0 <= saturation <= 1.0 && 0.0 <= lightness <= 1.0
    ensures InRange(HslIntended(hue, saturation, lightness))
    ensures RoundsToByte(HslIntended(hue, saturation, lightness))
    ensures IsCanonicalHex(ToString(HslIntended(hue, saturation, lightness)))
    ensures Lightness(HslIntended(hue, saturation, lightness)) == lightness
  {
    var c := HslIntended(hue, saturation, lightness);
    if saturation != 0.0 {
      var (t1, t2) := Anchors(saturation, lightness);
      AnchorsBounds(saturation, lightness);
      var h := hue / 360.0;
      ThirdsReachAnchors(h, t1, t2);
      assert Max(c) == t1 * 255.0 && Min(c) == t2 * 255.0;
    }
    InRangeRoundsToByte(c);
    ToStringWellFormed(c);
  }

  lemma Scale255(t1: real, t2: real, v: real)
    requires 0.0 <= t2 <= v <= t1 <= 1.0
    ensures 0.0 <= t2 * 255.0 <= v * 255.0 <= t1 * 255.0 <= 255.0
  {
  }

  lemma InRangeRoundsToByte(c: Color)
    requires InRange(c)
    ensures RoundsToByte(c)
  {
  }

  /** The input of the counterexample above, converted as intended: `#00aaff`. */
  lemma HslIntendedExample()
    ensures HslIntended(200.0, 1.0, 0.5) == Color(0.0, 170.0, 255.0)
    ensures ToString(HslIntended(200.0, 1.0, 0.5)) == "#00aaff"
  {
    var c := HslIntended(200.0, 1.0, 0.5);
    assert Frac(200.0 / 360.0 + 1.0 / 3.0) == 8.0 / 9.0;
    assert Frac(200.0 / 360.0 + 1.0 - 1.0 / 3.0) == 2.0 / 9.0;
    assert c == Color(0.0, 170.0, 255.0);
    ByteToHex(c.r);
    ByteToHex(c.g);
    ByteToHex(c.b);
  }
}
