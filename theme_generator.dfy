/**
 * The theme generator (src/colorsGenerator.ts): from one background color
 * and the list of color customization keys, build the map from key to
 * `#rrggbb` color string.
 *
 * Three `Color` operations the generator calls, `hueSaturationLightness`,
 * `createInBetween` and `perceivedLightness`, are not part of this model:
 * they are passed in as function values (`ColorOps`). `Math.random()` is
 * passed in as a stream of draws, `random(n)` being the n-th draw.
 */
module ThemeGenerator {
  import opened Wrappers
  import opened JsStrings
  import opened Colors
  import Diagnostics

  /** The color operations the generator relies on but that are not modelled here. */
  datatype ColorOps = ColorOps(
    fromHsl: (real, real, real) -> Color,          // `Color.hueSaturationLightness`
    createInBetween: (Color, Color, real) -> Color, // `Color.createInBetween`
    perceivedLightness: Color -> real)             // `Color.perceivedLightness`

  /**
   * What the generator needs of `hueSaturationLightness`: for a hue in
   * [0, 360) and saturation and lightness in [0, 1] it gives a color whose
   * channels round into 0..255, so that its string parses back.
   */
  ghost predicate ValidOps(ops: ColorOps) {
    forall hue: real, saturation: real, lightness: real
      | 0.0 <= hue < 360.0 && 0.0 <= saturation <= 1.0 && 0.0 <= lightness <= 1.0
      :: RoundsToByte(ops.fromHsl(hue, saturation, lightness))
  }

  /**
   * HSL-to-RGB as intended (the corrected `Color.hsl`) meets what the
   * generator needs.
   */
  lemma IntendedHslIsValid(ops: ColorOps)
    requires forall hue, saturation, lightness :: ops.fromHsl(hue, saturation, lightness) == HslIntended(hue, saturation, lightness)
    ensures ValidOps(ops)
  {
    forall hue: real, saturation: real, lightness: real
      | 0.0 <= hue < 360.0 && 0.0 <= saturation <= 1.0 && 0.0 <= lightness <= 1.0
      ensures RoundsToByte(ops.fromHsl(hue, saturation, lightness))
    {
      HslIntendedInRange(hue, saturation, lightness);
    }
  }

  /**
   * What `generateColors` needs of `hueSaturationLightness` before it can
   * parse the foreground back: the colors it asks for the foreground,
   * saturation 0.1 and lightness 0.1 or 0.9, have channels that round
   * into 0..255.
   */
  ghost predicate ForegroundsRound(ops: ColorOps) {
    forall hue: real | 0.0 <= hue < 360.0 ::
      RoundsToByte(ops.fromHsl(hue, 0.1, 0.1)) && RoundsToByte(ops.fromHsl(hue, 0.1, 0.9))
  }

  /** `Color.hsl` as written meets that need, although it breaks `ValidOps`. */
  lemma AsWrittenHslRoundsForegrounds(ops: ColorOps)
    requires forall hue, saturation, lightness :: ops.fromHsl(hue, saturation, lightness) == Hsl(hue, saturation, lightness)
    ensures ForegroundsRound(ops)
    ensures !ValidOps(ops)
  {
    forall hue: real | 0.0 <= hue < 360.0
      ensures RoundsToByte(ops.fromHsl(hue, 0.1, 0.1)) && RoundsToByte(ops.fromHsl(hue, 0.1, 0.9))
    {
      HslForegroundInRange(hue, 0.1);
      HslForegroundInRange(hue, 0.9);
    }
    HslGreenChannelCounterexample();
    assert !RoundsToByte(ops.fromHsl(200.0, 1.0, 0.5));
  }

  /**
   * With `Color.hsl` as written, `generateColor` can print a malformed
   * string: on the background `#00aaff` with draws of one half it asks
   * `hsl(200, 1, 0.5)` and writes `#00-155ff`.
   */
  lemma AsWrittenGeneratedColorMalformed(ops: ColorOps)
    requires forall hue, saturation, lightness :: ops.fromHsl(hue, saturation, lightness) == Hsl(hue, saturation, lightness)
    ensures ToString(GenerateColor(Color(0.0, 170.0, 255.0), ops, 0.5, 0.5)) == "#00-155ff"
  {
    var base := Color(0.0, 170.0, 255.0);
    assert Max(base) == 255.0 && Min(base) == 0.0;
    assert Hue(base) == 200.0;
    assert Lightness(base) == 0.5;
    assert Saturation(base) == 1.0;
    GenerationCentered(base);
    HslGreenChannelCounterexample();
  }

  lemma ValidOpsRoundsForegrounds(ops: ColorOps)
    requires ValidOps(ops)
    ensures ForegroundsRound(ops)
  {
    forall hue: real | 0.0 <= hue < 360.0
      ensures RoundsToByte(ops.fromHsl(hue, 0.1, 0.1)) && RoundsToByte(ops.fromHsl(hue, 0.1, 0.9))
    {
    }
  }

  // ---------------------------------------------------------------------
  // The fixed keys
  // ---------------------------------------------------------------------

  const EditorBackground := "editor.background"
  const EditorForeground := "editor.foreground"
  const ForegroundKey := "foreground"

  const TabUnfocusedActiveBackground := "tab.unfocusedActiveBackground"
  const TabUnfocusedHoverBackground := "tab.unfocusedHoverBackground"
  const TabUnfocusedActiveForeground := "tab.unfocusedActiveForeground"
  const TabUnfocusedHoverForeground := "tab.unfocusedHoverForeground"
  const TabInactiveBackground := "tab.inactiveBackground"
  const TabUnfocusedInactiveBackground := "tab.unfocusedInactiveBackground"
  const TabInactiveForeground := "tab.inactiveForeground"
  const TabUnfocusedInactiveForeground := "tab.unfocusedInactiveForeground"
  const GroupNoTabsBackground := "editorGroupHeader.noTabsBackground"
  const GroupTabsBackground := "editorGroupHeader.tabsBackground"
  const GroupTabsBorder := "editorGroupHeader.tabsBorder"

  /** The tab keys `fillInTabColors` writes before its border loop. */
  const UnfocusedBackgroundKeys: set<string> := {TabUnfocusedActiveBackground, TabUnfocusedHoverBackground}
  const UnfocusedForegroundKeys: set<string> := {TabUnfocusedActiveForeground, TabUnfocusedHoverForeground}
  const EarlyTabKeys: set<string> := UnfocusedBackgroundKeys + UnfocusedForegroundKeys

  /** The inactive tab keys `fillInTabColors` writes after its border loop. */
  const InactiveForegroundKeys: set<string> := {TabInactiveForeground, TabUnfocusedInactiveForeground}

  /** The fixed keys set to the dimmed background (a third of the way to the foreground), all written after the border loop. */
  const DimBackgroundKeys: set<string> :=
    {TabInactiveBackground, TabUnfocusedInactiveBackground, GroupNoTabsBackground, GroupTabsBackground}

  const LateTabKeys: set<string> := {GroupTabsBorder} + DimBackgroundKeys + InactiveForegroundKeys

  /** The fixed keys `fillInTabColors` sets to the editor background. */
  const BackgroundTabKeys: set<string> := UnfocusedBackgroundKeys + {GroupTabsBorder}

  /** The fixed keys set to the dimmed foreground (two thirds of the way to the foreground). */
  const DimForegroundKeys: set<string> := UnfocusedForegroundKeys + InactiveForegroundKeys

  const FixedTabKeys: set<string> := BackgroundTabKeys + DimBackgroundKeys + DimForegroundKeys

  /** The fixed keys are those written before the border loop and those written after it. */
  lemma FixedKeysAreEarlyAndLate()
    ensures FixedTabKeys == EarlyTabKeys + LateTabKeys
    ensures EditorBackground !in EarlyTabKeys
  {
  }

  /** No key is written both before and after the border loop. */
  lemma EarlyAndLateKeysDisjoint()
    ensures forall k :: k in EarlyTabKeys ==> k !in LateTabKeys
  {
  }

  // ---------------------------------------------------------------------
  // The rule for one key
  // ---------------------------------------------------------------------

  /** What `generateColors` does with a key. */
  datatype Rule =
    | UseBackground  // the background color itself
    | Generate       // a color generated near the background
    | UseForeground  // the shared foreground color
    | Skip           // nothing: the key is left out

  /** One test `generateColors` makes on a key. */
  datatype Test = Equals(text: string) | EndsIn(suffix: string)

  predicate Passes(key: string, test: Test) {
    match test
    case Equals(text) => key == text
    case EndsIn(suffix) => EndsWith(key, suffix)
  }

  /** Some of the tests pass: `||` over the tests. */
  predicate PassesSome(key: string, tests: seq<Test>)
    decreases |tests|
  {
    |tests| > 0 && (Passes(key, tests[0]) || PassesSome(key, tests[1..]))
  }

  /** The tests of `generateColors`, in their order, each with the rule it leads to. */
  const RuleTable: seq<(seq<Test>, Rule)> := [
    ([Equals(EditorBackground), EndsIn(".border"), EndsIn(".activeBorder")], UseBackground),
    ([EndsIn(".background")], Generate),
    ([EndsIn(".activeBackground"), EndsIn(".hoverBackground")], Generate),
    ([EndsIn(".foreground"), EndsIn(".activeForeground"), EndsIn(".hoverForeground")], UseForeground)
  ]

  /** The rule of the first row whose tests pass; `Skip` when none does. */
  function FirstRule(key: string, table: seq<(seq<Test>, Rule)>): Rule
    decreases |table|
  {
    if table == [] then Skip
    else if PassesSome(key, table[0].0) then table[0].1
    else FirstRule(key, table[1..])
  }

  /** What `generateColors` does with a key: the first test that matches decides. */
  function RuleFor(key: string): Rule {
    FirstRule(key, RuleTable)
  }

  lemma PassesSomeUnfold(key: string, tests: seq<Test>)
    requires |tests| > 0
    ensures PassesSome(key, tests) == (Passes(key, tests[0]) || PassesSome(key, tests[1..]))
  {
  }

  lemma FirstRuleUnfold(key: string, table: seq<(seq<Test>, Rule)>)
    requires |table| > 0
    ensures FirstRule(key, table) == if PassesSome(key, table[0].0) then table[0].1 else FirstRule(key, table[1..])
  {
  }

  /** `RuleFor` tries the rows of the table in order. */
  lemma RuleForByRows(key: string)
    ensures var t := RuleTable;
      RuleFor(key) ==
        if PassesSome(key, t[0].0) then UseBackground
        else if PassesSome(key, t[1].0) then Generate
        else if PassesSome(key, t[2].0) then Generate
        else if PassesSome(key, t[3].0) then UseForeground
        else Skip
  {
    var t := RuleTable;
    FirstRuleUnfold(key, t);
    FirstRuleUnfold(key, t[1..]);
    FirstRuleUnfold(key, t[1..][1..]);
    FirstRuleUnfold(key, t[1..][1..][1..]);
    assert t[1..][1..][1..][1..] == [];
    assert t[1..][0] == t[1] && t[1..][1..][0] == t[2] && t[1..][1..][1..][0] == t[3];
  }

  /** A row of three tests passes when one of its tests does. */
  lemma PassesSomeOfThree(key: string, a: Test, b: Test, c: Test)
    ensures PassesSome(key, [a, b, c]) == (Passes(key, a) || Passes(key, b) || Passes(key, c))
  {
    var r := [a, b, c];
    PassesSomeUnfold(key, r);
    PassesSomeUnfold(key, r[1..]);
    PassesSomeUnfold(key, r[1..][1..]);
    assert r[1..][1..][1..] == [];
  }

  /** A row of two tests passes when one of its tests does. */
  lemma PassesSomeOfTwo(key: string, a: Test, b: Test)
    ensures PassesSome(key, [a, b]) == (Passes(key, a) || Passes(key, b))
  {
    var r := [a, b];
    PassesSomeUnfold(key, r);
    PassesSomeUnfold(key, r[1..]);
    assert r[1..][1..] == [];
  }

  /** A row of one test passes when its test does. */
  lemma PassesSomeOfOne(key: string, a: Test)
    ensures PassesSome(key, [a]) == Passes(key, a)
  {
    PassesSomeUnfold(key, [a]);
    assert [a][1..] == [];
  }

  /** The table spelled out: `editor.background` is matched first, so it is never generated. */
  lemma RuleForSpelledOut(key: string)
    ensures RuleFor(key) ==
      if key == EditorBackground || EndsWith(key, ".border") || EndsWith(key, ".activeBorder") then UseBackground
      else if EndsWith(key, ".background") then Generate
      else if EndsWith(key, ".activeBackground") || EndsWith(key, ".hoverBackground") then Generate
      else if EndsWith(key, ".foreground") || EndsWith(key, ".activeForeground") || EndsWith(key, ".hoverForeground") then UseForeground
      else Skip
  {
    RuleForByRows(key);
    PassesSomeOfThree(key, Equals(EditorBackground), EndsIn(".border"), EndsIn(".activeBorder"));
    PassesSomeOfOne(key, EndsIn(".background"));
    PassesSomeOfTwo(key, EndsIn(".activeBackground"), EndsIn(".hoverBackground"));
    PassesSomeOfThree(key, EndsIn(".foreground"), EndsIn(".activeForeground"), EndsIn(".hoverForeground"));
  }

  /** The rule for the text after the last dot of a key. */
  function RuleOfWord(word: string): Rule {
    if word == "border" || word == "activeBorder" then UseBackground
    else if word == "background" || word == "activeBackground" || word == "hoverBackground" then Generate
    else if word == "foreground" || word == "activeForeground" || word == "hoverForeground" then UseForeground
    else Skip
  }

  /**
   * A key ends with a dot and a dot-free word exactly when it holds a dot
   * and the word is the text after its last dot.
   */
  lemma EndsWithDotWord(s: string, word: string)
    requires '.' !in word
    ensures EndsWith(s, "." + word) <==> '.' in s && LastSegment(s) == word
  {
    var p := LastSegment(s);
    assert forall i :: |s| - |p| <= i < |s| ==> s[i] != '.' by {
      forall i | |s| - |p| <= i < |s| ensures s[i] != '.' {
        assert s[i] == p[i - (|s| - |p|)];
        assert p[i - (|s| - |p|)] in p;
      }
    }
    if EndsWith(s, "." + word) {
      assert s[|s| - |word| - 1] == '.';
      assert s[|s| - |word|..] == word;
      assert forall i :: |s| - |word| <= i < |s| ==> s[i] != '.' by {
        forall i | |s| - |word| <= i < |s| ensures s[i] != '.' {
          assert s[i] == word[i - (|s| - |word|)];
          assert word[i - (|s| - |word|)] in word;
        }
      }
      assert |p| <= |word| && |p| < |s|;
      assert s[|s| - |p| - 1] == '.';
      assert |word| <= |p|;
      assert p == s[|s| - |p|..];
    }
    if '.' in s && p == word {
      assert |p| == |s| ==> s == p;
      assert s[|s| - |word| - 1..] == "." + word;
    }
  }

  /** The suffix tests that lead to the background or a color generated from it, as tests of the text after the last dot. */
  lemma BackgroundSuffixTestsByLastWord(key: string)
    ensures EndsWith(key, ".border") <==> '.' in key && LastSegment(key) == "border"
    ensures EndsWith(key, ".activeBorder") <==> '.' in key && LastSegment(key) == "activeBorder"
    ensures EndsWith(key, ".background") <==> '.' in key && LastSegment(key) == "background"
    ensures EndsWith(key, ".activeBackground") <==> '.' in key && LastSegment(key) == "activeBackground"
    ensures EndsWith(key, ".hoverBackground") <==> '.' in key && LastSegment(key) == "hoverBackground"
  {
    assert ".border" == "." + "border";
    EndsWithDotWord(key, "border");
    assert ".activeBorder" == "." + "activeBorder";
    EndsWithDotWord(key, "activeBorder");
    assert ".background" == "." + "background";
    EndsWithDotWord(key, "background");
    assert ".activeBackground" == "." + "activeBackground";
    EndsWithDotWord(key, "activeBackground");
    assert ".hoverBackground" == "." + "hoverBackground";
    EndsWithDotWord(key, "hoverBackground");
  }

  /** The suffix tests that lead to the foreground, as tests of the text after the last dot. */
  lemma ForegroundSuffixTestsByLastWord(key: string)
    ensures EndsWith(key, ".foreground") <==> '.' in key && LastSegment(key) == "foreground"
    ensures EndsWith(key, ".activeForeground") <==> '.' in key && LastSegment(key) == "activeForeground"
    ensures EndsWith(key, ".hoverForeground") <==> '.' in key && LastSegment(key) == "hoverForeground"
  {
    assert ".foreground" == "." + "foreground";
    EndsWithDotWord(key, "foreground");
    assert ".activeForeground" == "." + "activeForeground";
    EndsWithDotWord(key, "activeForeground");
    assert ".hoverForeground" == "." + "hoverForeground";
    EndsWithDotWord(key, "hoverForeground");
  }

  /**
   * Apart from `editor.background`, the rule of a key depends only on the
   * text after its last dot, and a key without a dot is left out.
   */
  lemma RuleByLastWord(key: string)
    requires key != EditorBackground
    ensures RuleFor(key) == if '.' in key then RuleOfWord(LastSegment(key)) else Skip
  {
    RuleForSpelledOut(key);
    BackgroundSuffixTestsByLastWord(key);
    ForegroundSuffixTestsByLastWord(key);
  }

  // ---------------------------------------------------------------------
  // generateColor and foregroundColorFromBackground
  // ---------------------------------------------------------------------

  /** The hue, saturation and lightness handed to `hueSaturationLightness`. */
  datatype HslParams = HslParams(hue: real, saturation: real, lightness: real)

  const SaturationRadius := 0.1
  const LightnessRadius := 0.1

  /** The clamping of `generateColor`: below 0 becomes 0, above 1 becomes 1. */
  function Clamp(x: real): (y: real)
    ensures 0.0 <= y <= 1.0
    ensures 0.0 <= x <= 1.0 ==> y == x
    ensures x < 0.0 ==> y == 0.0
    ensures x > 1.0 ==> y == 1.0
  {
    if x < 0.0 then 0.0 else if x > 1.0 then 1.0 else x
  }

  /** The parameters `generateColor` picks near `base`, given its two draws: saturation first, then lightness. */
  function GenerationParams(base: Color, saturationDraw: real, lightnessDraw: real): HslParams
    requires InRange(base)
  {
    var saturation := Saturation(base) - SaturationRadius + saturationDraw * SaturationRadius * 2.0;
    var lightness := Lightness(base) - LightnessRadius + lightnessDraw * LightnessRadius * 2.0;
    HslParams(Hue(base), if Saturation(base) == 0.0 then 0.0 else Clamp(saturation), Clamp(lightness))
  }

  /**
   * The hue is kept, saturation and lightness stay in [0, 1] and, for draws
   * in [0, 1], move by at most the radius; a grey base stays grey.
   */
  lemma GenerationParamsBounds(base: Color, saturationDraw: real, lightnessDraw: real)
    requires InRange(base)
    ensures var p := GenerationParams(base, saturationDraw, lightnessDraw);
      && p.hue == Hue(base)
      && 0.0 <= p.saturation <= 1.0 && 0.0 <= p.lightness <= 1.0
      && (Saturation(base) == 0.0 ==> p.saturation == 0.0)
      && (0.0 <= saturationDraw <= 1.0 ==> Abs(p.saturation - Saturation(base)) <= SaturationRadius)
      && (0.0 <= lightnessDraw <= 1.0 ==> Abs(p.lightness - Lightness(base)) <= LightnessRadius)
  {
  }

  /** Draws of one half give back the base color's own hue, saturation and lightness. */
  lemma GenerationCentered(base: Color)
    requires InRange(base)
    ensures GenerationParams(base, 0.5, 0.5) == HslParams(Hue(base), Saturation(base), Lightness(base))
  {
  }

  /** A larger draw never gives a smaller saturation or lightness. */
  lemma GenerationMonotone(base: Color, s1: real, s2: real, l1: real, l2: real)
    requires InRange(base) && s1 <= s2 && l1 <= l2
    ensures GenerationParams(base, s1, l1).saturation <= GenerationParams(base, s2, l2).saturation
    ensures GenerationParams(base, s1, l1).lightness <= GenerationParams(base, s2, l2).lightness
  {
  }

  /** `generateColor`: a color somewhat close to `base`. */
  function GenerateColor(base: Color, ops: ColorOps, saturationDraw: real, lightnessDraw: real): Color
    requires InRange(base)
  {
    var p := GenerationParams(base, saturationDraw, lightnessDraw);
    ops.fromHsl(p.hue, p.saturation, p.lightness)
  }

  /**
   * `(hue + 180) % 360` for a hue in [0, 360): JavaScript's `%` on a
   * non-negative number below 720 takes 360 off once it reaches 360.
   */
  function OppositeHue(hue: real): (h: real)
    requires 0.0 <= hue < 360.0
    ensures 0.0 <= h < 360.0
    ensures Abs(h - hue) == 180.0
  {
    if hue + 180.0 < 360.0 then hue + 180.0 else hue + 180.0 - 360.0
  }

  /** How many draws `foregroundColorFromBackground` takes: one, for a grey background only. */
  function ForegroundDraws(background: Color): nat
    requires InRange(background)
  {
    if Saturation(background) == 0.0 then 1 else 0
  }

  /**
   * The parameters `foregroundColorFromBackground` picks, given its draw:
   * a low saturation, the lightness at the far end from the background's
   * perceived lightness, and the hue opposite the background's (any hue,
   * from the draw, for a grey background).
   */
  function ForegroundParams(background: Color, draw: real, ops: ColorOps): (p: HslParams)
    requires InRange(background)
    ensures p.saturation == 0.1
    ensures ops.perceivedLightness(background) > 0.5 ==> p.lightness == 0.1
    ensures ops.perceivedLightness(background) <= 0.5 ==> p.lightness == 0.9
    ensures Saturation(background) == 0.0 ==> p.hue == draw * 360.0
    ensures Saturation(background) != 0.0 ==> 0.0 <= p.hue < 360.0 && Abs(p.hue - Hue(background)) == 180.0
    ensures 0.0 <= draw < 1.0 ==> 0.0 <= p.hue < 360.0
  {
    var hue := if Saturation(background) == 0.0 then draw * 360.0 else OppositeHue(Hue(background));
    var lightness := if ops.perceivedLightness(background) > 0.5 then 0.1 else 0.9;
    HslParams(hue, 0.1, lightness)
  }

  /** `foregroundColorFromBackground` */
  function ForegroundColorFromBackground(background: Color, draw: real, ops: ColorOps): Color
    requires InRange(background)
  {
    var p := ForegroundParams(background, draw, ops);
    ops.fromHsl(p.hue, p.saturation, p.lightness)
  }

  // ---------------------------------------------------------------------
  // The per-key pass of generateColors
  // ---------------------------------------------------------------------

  /**
   * What the per-key pass works from: the background, the foreground
   * string, and the colors `generateColor` returns, `generated(j)` being
   * the one whose two draws are the j-th and the next.
   */
  datatype Palette = Palette(background: Color, foreground: string, generated: nat -> Color)

  /** The string a rule writes, when the pass is at draw `draw`. */
  function Text(p: Palette, rule: Rule, draw: nat): string {
    match rule
    case UseBackground => ToString(p.background)
    case Generate => ToString(p.generated(draw))
    case UseForeground => p.foreground
    case Skip => ""
  }

  /** The draws a rule takes: two (saturation, then lightness) to generate a color. */
  function DrawsOf(rule: Rule): nat {
    if rule == Generate then 2 else 0
  }

  /** The per-key pass as a function: later keys overwrite earlier ones. */
  function Dispatch(keys: seq<string>, m: map<string, string>, p: Palette, draw: nat): map<string, string>
    decreases |keys|
  {
    if keys == [] then m
    else
      var rule := RuleFor(keys[0]);
      if rule == Skip then Dispatch(keys[1..], m, p, draw)
      else Dispatch(keys[1..], m[keys[0] := Text(p, rule, draw)], p, draw + DrawsOf(rule))
  }

  /** The keys the pass writes, gathered key by key. */
  function RuledKeys(keys: seq<string>): set<string>
    decreases |keys|
  {
    if keys == [] then {}
    else RuledKeys(keys[1..]) + (if RuleFor(keys[0]) == Skip then {} else {keys[0]})
  }

  /** The keys the pass writes are the listed keys that have a rule. */
  lemma {:induction false} RuledKeysMembers(keys: seq<string>)
    ensures forall k :: k in RuledKeys(keys) <==> k in keys && RuleFor(k) != Skip
    decreases |keys|
  {
    if keys != [] {
      RuledKeysMembers(keys[1..]);
      assert keys == [keys[0]] + keys[1..];
    }
  }

  /**
   * A string a rule can write: the background or foreground string, or for
   * `Generate` a color generated from some pair of consecutive draws.
   */
  ghost predicate Fits(value: string, rule: Rule, p: Palette) {
    if rule == Generate then exists j: nat :: value == Text(p, Generate, j)
    else value == Text(p, rule, 0)
  }

  /** One step of the pass, at position `i`. */
  lemma DispatchStep(keys: seq<string>, i: nat, m: map<string, string>, p: Palette, draw: nat,
                     m': map<string, string>, draw': nat)
    requires i < |keys|
    requires var rule := RuleFor(keys[i]);
      && m' == (if rule == Skip then m else m[keys[i] := Text(p, rule, draw)])
      && draw' == draw + DrawsOf(rule)
    ensures Dispatch(keys[i..], m, p, draw) == Dispatch(keys[i + 1..], m', p, draw')
  {
    assert keys[i..][1..] == keys[i + 1..];
  }

  /** The pass adds exactly the keys with a rule. */
  lemma {:induction false} DispatchKeys(keys: seq<string>, m: map<string, string>, p: Palette, draw: nat)
    ensures Dispatch(keys, m, p, draw).Keys == m.Keys + RuledKeys(keys)
    decreases |keys|
  {
    if keys != [] {
      var rule := RuleFor(keys[0]);
      if rule == Skip {
        DispatchKeys(keys[1..], m, p, draw);
      } else {
        var m' := m[keys[0] := Text(p, rule, draw)];
        DispatchKeys(keys[1..], m', p, draw + DrawsOf(rule));
        assert m'.Keys == m.Keys + {keys[0]};
      }
    }
  }

  /** Each key with a rule ends up with a string its rule writes; the others keep their value. */
  lemma {:induction false} DispatchValues(keys: seq<string>, m: map<string, string>, p: Palette, draw: nat)
    ensures forall k :: k in Dispatch(keys, m, p, draw) && k in RuledKeys(keys) ==>
      Fits(Dispatch(keys, m, p, draw)[k], RuleFor(k), p)
    ensures forall k :: k in Dispatch(keys, m, p, draw) && k !in RuledKeys(keys) ==>
      k in m && Dispatch(keys, m, p, draw)[k] == m[k]
    decreases |keys|
  {
    if keys != [] {
      var rule := RuleFor(keys[0]);
      var m' := if rule == Skip then m else m[keys[0] := Text(p, rule, draw)];
      var draw' := draw + DrawsOf(rule);
      DispatchValues(keys[1..], m', p, draw');
      assert Dispatch(keys, m, p, draw) == Dispatch(keys[1..], m', p, draw');
      if rule != Skip {
        assert Fits(Text(p, rule, draw), rule, p) by {
          if rule == Generate {
            assert Text(p, Generate, draw) == Text(p, Generate, draw);
          }
        }
      }
    }
  }

  /** The body of the loop of `generateColors`: the first suffix test that matches decides what `key` gets. */
  method ApplyRule(key: string, m: map<string, string>, background: Color, foreground: string,
                   generated: nat -> Color, draw: nat)
    returns (m': map<string, string>, draw': nat)
    ensures var rule := RuleFor(key);
      && m' == (if rule == Skip then m else m[key := Text(Palette(background, foreground, generated), rule, draw)])
      && draw' == draw + DrawsOf(rule)
  {
    RuleForSpelledOut(key);
    m', draw' := m, draw;
    if key == EditorBackground || EndsWith(key, ".border") || EndsWith(key, ".activeBorder") {
      m' := m[key := ToString(background)];
      return;
    }
    if EndsWith(key, ".background") {
      m' := m[key := ToString(generated(draw))];
      draw' := draw + 2;
      return;
    }
    if EndsWith(key, ".activeBackground") || EndsWith(key, ".hoverBackground") {
      m' := m[key := ToString(generated(draw))];
      draw' := draw + 2;
      return;
    }
    if EndsWith(key, ".foreground") || EndsWith(key, ".activeForeground") || EndsWith(key, ".hoverForeground") {
      m' := m[key := foreground];
      return;
    }
  }

  /** The loop of `generateColors` over the keys. */
  method ApplyRules(keys: seq<string>, m0: map<string, string>, background: Color, foreground: string,
                    generated: nat -> Color, draw0: nat)
    returns (m: map<string, string>, draw: nat)
    ensures m == Dispatch(keys, m0, Palette(background, foreground, generated), draw0)
  {
    ghost var p := Palette(background, foreground, generated);
    m := m0;
    draw := draw0;
    for i := 0 to |keys|
      invariant Dispatch(keys, m0, p, draw0) == Dispatch(keys[i..], m, p, draw)
    {
      ghost var m1, draw1 := m, draw;
      m, draw := ApplyRule(keys[i], m, background, foreground, generated, draw);
      DispatchStep(keys, i, m1, p, draw1, m, draw);
    }
  }

  // ---------------------------------------------------------------------
  // fillInTabColors
  // ---------------------------------------------------------------------

  /** A listed key that `fillInTabColors` gives the editor background: a tab key mentioning a border. */
  predicate IsTabBorderKey(key: string) {
    StartsWith(key, "tab.") && Includes(ToLower(key), "border")
  }

  /** The tab border keys of a key list, gathered key by key. */
  function TabBorderKeys(keys: seq<string>): set<string>
    decreases |keys|
  {
    if keys == [] then {}
    else TabBorderKeys(keys[1..]) + (if IsTabBorderKey(keys[0]) then {keys[0]} else {})
  }

  /** The tab border keys are the listed keys that are tab border keys. */
  lemma {:induction false} TabBorderKeysMembers(keys: seq<string>)
    ensures forall k :: k in TabBorderKeys(keys) <==> k in keys && IsTabBorderKey(k)
    decreases |keys|
  {
    if keys != [] {
      TabBorderKeysMembers(keys[1..]);
      assert keys == [keys[0]] + keys[1..];
    }
  }

  /** A key in which no `b` is followed by an `o`, in either case, does not mention a border. */
  lemma NoBorderIn(s: string)
    requires forall i :: 0 <= i < |s| - 1 ==> !(LowerChar(s[i]) == 'b' && LowerChar(s[i + 1]) == 'o')
    ensures !Includes(ToLower(s), "border")
  {
    var t := ToLower(s);
    forall i | 0 <= i <= |t| - 6 ensures !OccursAt(t, "border", i) {
      var w := t[i..i + 6];
      assert w[0] == LowerChar(s[i]) && w[1] == LowerChar(s[i + 1]);
      assert "border"[0] == 'b' && "border"[1] == 'o';
    }
  }

  lemma ActiveBackgroundIsNotBorder()
    ensures !IsTabBorderKey(TabUnfocusedActiveBackground)
  {
    NoBorderIn(TabUnfocusedActiveBackground);
  }

  lemma HoverBackgroundIsNotBorder()
    ensures !IsTabBorderKey(TabUnfocusedHoverBackground)
  {
    NoBorderIn(TabUnfocusedHoverBackground);
  }

  lemma ActiveForegroundIsNotBorder()
    ensures !IsTabBorderKey(TabUnfocusedActiveForeground)
  {
    NoBorderIn(TabUnfocusedActiveForeground);
  }

  lemma HoverForegroundIsNotBorder()
    ensures !IsTabBorderKey(TabUnfocusedHoverForeground)
  {
    NoBorderIn(TabUnfocusedHoverForeground);
  }

  /** None of the tab keys written before the border loop mentions a border, so the loop leaves them alone. */
  lemma UnfocusedKeyIsNotBorder(key: string)
    requires key in {TabUnfocusedActiveBackground, TabUnfocusedHoverBackground, TabUnfocusedActiveForeground, TabUnfocusedHoverForeground}
    ensures !IsTabBorderKey(key)
  {
    if key == TabUnfocusedActiveBackground {
      ActiveBackgroundIsNotBorder();
    } else if key == TabUnfocusedHoverBackground {
      HoverBackgroundIsNotBorder();
    } else if key == TabUnfocusedActiveForeground {
      ActiveForegroundIsNotBorder();
    } else {
      HoverForegroundIsNotBorder();
    }
  }

  /** `editor.background` is not a tab key, so the border loop never rewrites it. */
  lemma EditorBackgroundIsNotBorder()
    ensures !IsTabBorderKey(EditorBackground)
  {
    assert EditorBackground[0] != "tab."[0];
  }

  /** The border loop of `fillInTabColors`: each listed tab border key takes the editor background's string. */
  method SetTabBorders(allKeys: seq<string>, c: map<string, string>) returns (r: map<string, string>)
    requires EditorBackground in c
    ensures r.Keys == c.Keys + TabBorderKeys(allKeys)
    ensures forall k :: k in TabBorderKeys(allKeys) ==> r[k] == c[EditorBackground]
    ensures forall k :: k in c && k !in TabBorderKeys(allKeys) ==> r[k] == c[k]
  {
    EditorBackgroundIsNotBorder();
    r := c;
    for i := 0 to |allKeys|
      invariant forall k :: k in r <==> k in c || (k in allKeys[..i] && IsTabBorderKey(k))
      invariant forall k :: k in allKeys[..i] && IsTabBorderKey(k) ==> r[k] == c[EditorBackground]
      invariant forall k :: k in c && !(k in allKeys[..i] && IsTabBorderKey(k)) ==> r[k] == c[k]
    {
      var key := allKeys[i];
      assert allKeys[..i + 1] == allKeys[..i] + [key];
      if !StartsWith(key, "tab.") {
        continue;
      }
      if !Includes(ToLower(key), "border") {
        continue;
      }
      r := r[key := r[EditorBackground]];
    }
    assert allKeys[..|allKeys|] == allKeys;
    TabBorderKeysMembers(allKeys);
  }

  /**
   * The customizations `m` that `fillInTabColors` leaves, starting from `c`,
   * given the strings it writes: the fixed tab and group-header keys get
   * the background, the dimmed background or the dimmed foreground; the
   * other listed tab border keys get the editor background's string; every
   * other key keeps its value.
   */
  ghost predicate TabColorsWritten(allKeys: seq<string>, c: map<string, string>, m: map<string, string>,
                                   backgroundText: string, dimmedBackgroundText: string, dimmedForegroundText: string)
    requires EditorBackground in c
  {
    && m.Keys == c.Keys + TabBorderKeys(allKeys) + FixedTabKeys
    && (forall k :: k in BackgroundTabKeys ==> m[k] == backgroundText)
    && (forall k :: k in DimBackgroundKeys ==> m[k] == dimmedBackgroundText)
    && (forall k :: k in DimForegroundKeys ==> m[k] == dimmedForegroundText)
    && (forall k :: k in TabBorderKeys(allKeys) && k !in FixedTabKeys ==> m[k] == c[EditorBackground])
    && (forall k :: k in c && k !in TabBorderKeys(allKeys) && k !in FixedTabKeys ==> m[k] == c[k])
  }

  /** `TabColorsWritten` with the strings of the parsed colors and their blends a third and two thirds of the way. */
  ghost predicate TabColorsFilled(allKeys: seq<string>, c: map<string, string>, ops: ColorOps, m: map<string, string>)
    requires EditorBackground in c && IsParsable(c[EditorBackground])
    requires EditorForeground in c && IsParsable(c[EditorForeground])
  {
    var background := Parse(c[EditorBackground]);
    var foreground := Parse(c[EditorForeground]);
    TabColorsWritten(allKeys, c, m, ToString(background),
      ToString(ops.createInBetween(background, foreground, 0.33)),
      ToString(ops.createInBetween(background, foreground, 0.66)))
  }

  /** The writes of `fillInTabColors` before its border loop. */
  method WriteEarlyTabKeys(m: map<string, string>, backgroundText: string, dimmedForegroundText: string)
    returns (m': map<string, string>)
    ensures m'.Keys == m.Keys + EarlyTabKeys
    ensures forall k :: k in UnfocusedBackgroundKeys ==> m'[k] == backgroundText
    ensures forall k :: k in UnfocusedForegroundKeys ==> m'[k] == dimmedForegroundText
    ensures forall k :: k in m && k !in EarlyTabKeys ==> m'[k] == m[k]
  {
    m' := m[TabUnfocusedActiveBackground := backgroundText];
    m' := m'[TabUnfocusedHoverBackground := backgroundText];
    m' := m'[TabUnfocusedActiveForeground := dimmedForegroundText];
    m' := m'[TabUnfocusedHoverForeground := dimmedForegroundText];
  }

  /** The writes of `fillInTabColors` after its border loop. */
  method WriteLateTabKeys(m: map<string, string>, backgroundText: string, dimmedBackgroundText: string,
                          dimmedForegroundText: string)
    returns (m': map<string, string>)
    ensures m'.Keys == m.Keys + LateTabKeys
    ensures m'[GroupTabsBorder] == backgroundText
    ensures forall k :: k in DimBackgroundKeys ==> m'[k] == dimmedBackgroundText
    ensures forall k :: k in InactiveForegroundKeys ==> m'[k] == dimmedForegroundText
    ensures forall k :: k in m && k !in LateTabKeys ==> m'[k] == m[k]
  {
    m' := m[TabInactiveBackground := dimmedBackgroundText];
    m' := m'[TabUnfocusedInactiveBackground := dimmedBackgroundText];
    m' := m'[TabInactiveForeground := dimmedForegroundText];
    m' := m'[TabUnfocusedInactiveForeground := dimmedForegroundText];
    m' := m'[GroupNoTabsBackground := dimmedBackgroundText];
    m' := m'[GroupTabsBackground := dimmedBackgroundText];
    m' := m'[GroupTabsBorder := backgroundText];
  }

  /**
   * Three stages of writes: `early` keys, then the `border` keys copying
   * `eb`'s value, then `late` keys. The late writes win, the early keys
   * survive the border stage when no early key is a border key, and every
   * other key keeps its value.
   */
  lemma {:induction false} StagesCompose(c: map<string, string>, m1: map<string, string>, m2: map<string, string>,
                                         m3: map<string, string>, early: set<string>, border: set<string>,
                                         late: set<string>, eb: string)
    requires eb in c && eb !in early && early !! late && early !! border
    requires m1.Keys == c.Keys + early
    requires forall k :: k in c && k !in early ==> m1[k] == c[k]
    requires m2.Keys == m1.Keys + border
    requires forall k :: k in border ==> m2[k] == m1[eb]
    requires forall k :: k in m1 && k !in border ==> m2[k] == m1[k]
    requires m3.Keys == m2.Keys + late
    requires forall k :: k in m2 && k !in late ==> m3[k] == m2[k]
    ensures m3.Keys == c.Keys + border + (early + late)
    ensures forall k :: k in early ==> m3[k] == m1[k]
    ensures forall k :: k in border && k !in late ==> m3[k] == c[eb]
    ensures forall k :: k in c && k !in border && k !in early + late ==> m3[k] == c[k]
  {
  }

  /** The border loop cannot touch a key written before it. */
  lemma EarlyKeysAreNotBorders(allKeys: seq<string>)
    ensures EarlyTabKeys !! TabBorderKeys(allKeys)
  {
    TabBorderKeysMembers(allKeys);
    forall k | k in EarlyTabKeys ensures k !in TabBorderKeys(allKeys) {
      UnfocusedKeyIsNotBorder(k);
    }
  }

  /** The three stages of `fillInTabColors` together give `TabColorsWritten`. */
  lemma TabStagesCompose(allKeys: seq<string>, c: map<string, string>,
                         m1: map<string, string>, m2: map<string, string>, m3: map<string, string>,
                         backgroundText: string, dimmedBackgroundText: string, dimmedForegroundText: string)
    requires EditorBackground in c
    requires m1.Keys == c.Keys + EarlyTabKeys
    requires forall k :: k in UnfocusedBackgroundKeys ==> m1[k] == backgroundText
    requires forall k :: k in UnfocusedForegroundKeys ==> m1[k] == dimmedForegroundText
    requires forall k :: k in c && k !in EarlyTabKeys ==> m1[k] == c[k]
    requires m2.Keys == m1.Keys + TabBorderKeys(allKeys)
    requires forall k :: k in TabBorderKeys(allKeys) ==> m2[k] == m1[EditorBackground]
    requires forall k :: k in m1 && k !in TabBorderKeys(allKeys) ==> m2[k] == m1[k]
    requires m3.Keys == m2.Keys + LateTabKeys
    requires m3[GroupTabsBorder] == backgroundText
    requires forall k :: k in DimBackgroundKeys ==> m3[k] == dimmedBackgroundText
    requires forall k :: k in InactiveForegroundKeys ==> m3[k] == dimmedForegroundText
    requires forall k :: k in m2 && k !in LateTabKeys ==> m3[k] == m2[k]
    ensures TabColorsWritten(allKeys, c, m3, backgroundText, dimmedBackgroundText, dimmedForegroundText)
  {
    EarlyAndLateKeysDisjoint();
    EarlyKeysAreNotBorders(allKeys);
    FixedKeysAreEarlyAndLate();
    StagesCompose(c, m1, m2, m3, EarlyTabKeys, TabBorderKeys(allKeys), LateTabKeys, EditorBackground);
  }

  /**
   * `fillInTabColors`. Parsing a missing `editor.background` or
   * `editor.foreground` throws, which is the failure here.
   */
  method FillInTabColors(allKeys: seq<string>, c: map<string, string>, ops: ColorOps)
    returns (r: Result<map<string, string>, string>)
    requires EditorBackground in c ==> IsParsable(c[EditorBackground])
    requires EditorForeground in c ==> IsParsable(c[EditorForeground])
    ensures r.Failure? <==> EditorBackground !in c || EditorForeground !in c
    ensures r.Success? ==> TabColorsFilled(allKeys, c, ops, r.value)
  {
    if EditorBackground !in c || EditorForeground !in c {
      return Failure("TypeError: cannot read properties of undefined (reading 'substring')");
    }
    var background := Parse(c[EditorBackground]);
    var foreground := Parse(c[EditorForeground]);
    var dimmedBackground := ops.createInBetween(background, foreground, 0.33);
    var dimmedForeground := ops.createInBetween(background, foreground, 0.66);
    var backgroundText, dimmedBackgroundText, dimmedForegroundText :=
      ToString(background), ToString(dimmedBackground), ToString(dimmedForeground);

    var m1 := WriteEarlyTabKeys(c, backgroundText, dimmedForegroundText);
    var m2 := SetTabBorders(allKeys, m1);
    var m3 := WriteLateTabKeys(m2, backgroundText, dimmedBackgroundText, dimmedForegroundText);
    TabStagesCompose(allKeys, c, m1, m2, m3, backgroundText, dimmedBackgroundText, dimmedForegroundText);
    r := Success(m3);
  }

  // ---------------------------------------------------------------------
  // generateColors
  // ---------------------------------------------------------------------

  /** `editor.background` takes the background and `editor.foreground` the foreground. */
  lemma EditorKeyRules()
    ensures RuleFor(EditorBackground) == UseBackground
    ensures RuleFor(EditorForeground) == UseForeground
  {
    RuleForSpelledOut(EditorBackground);
    EditorForegroundRule();
  }

  lemma EditorForegroundRule()
    ensures RuleFor(EditorForeground) == UseForeground
  {
    var k := EditorForeground;
    assert k[7] != EditorBackground[7];
    assert k[|k| - 7] != '.';
    assert k[|k| - 13] != '.';
    assert k[|k| - 11] == '.' && k[|k| - 10] != 'b';
    assert k[|k| - 16] != '.';
    assert k[|k| - 17] != '.';
    assert k[|k| - 11..] == ".foreground";
    RuleForSpelledOut(k);
  }

  /** The string of the generated foreground color; a grey background spends the first draw on it. */
  function ForegroundText(background: Color, ops: ColorOps, random: nat -> real): string
    requires InRange(background)
  {
    ToString(ForegroundColorFromBackground(background, random(0), ops))
  }

  /** The foreground string is a `#rrggbb` string, so `fillInTabColors` can parse it. */
  lemma ForegroundTextWellFormed(background: Color, ops: ColorOps, random: nat -> real)
    requires InRange(background) && ForegroundsRound(ops) && 0.0 <= random(0) < 1.0
    ensures IsCanonicalHex(ForegroundText(background, ops, random))
    ensures IsParsable(ForegroundText(background, ops, random))
  {
    var p := ForegroundParams(background, random(0), ops);
    var c := ops.fromHsl(p.hue, p.saturation, p.lightness);
    assert 0.0 <= p.hue < 360.0 && p.saturation == 0.1 && (p.lightness == 0.1 || p.lightness == 0.9);
    assert RoundsToByte(c);
    ParseToString(c);
    ToStringWellFormed(c);
  }

  /** The colors `generateColor` returns for each start in the stream of draws. */
  function GeneratedColors(background: Color, ops: ColorOps, random: nat -> real): nat -> Color
    requires InRange(background)
  {
    (j: nat) => GenerateColor(background, ops, random(j), random(j + 1))
  }

  lemma GeneratedColorsAt(background: Color, ops: ColorOps, random: nat -> real, j: nat)
    requires InRange(background)
    ensures GeneratedColors(background, ops, random)(j) == GenerateColor(background, ops, random(j), random(j + 1))
  {
  }

  /** At draw `j` the pass writes the string of the color `generateColor` makes from draws `j` and `j + 1`. */
  lemma GeneratedTextIs(background: Color, ops: ColorOps, random: nat -> real, j: nat)
    requires InRange(background)
    ensures Text(PaletteOf(background, ops, random), Generate, j) == ToString(GenerateColor(background, ops, random(j), random(j + 1)))
  {
    GeneratedColorsAt(background, ops, random, j);
  }

  /** The palette of the per-key pass of `generateColors`. */
  function PaletteOf(background: Color, ops: ColorOps, random: nat -> real): Palette
    requires InRange(background)
  {
    Palette(background, ForegroundText(background, ops, random), GeneratedColors(background, ops, random))
  }

  /** The customizations after the per-key pass: the foreground entry, then every key with a rule. */
  function RuledColors(background: Color, keys: seq<string>, ops: ColorOps, random: nat -> real): map<string, string>
    requires InRange(background)
  {
    Dispatch(keys, map[ForegroundKey := ForegroundText(background, ops, random)],
      PaletteOf(background, ops, random), ForegroundDraws(background))
  }

  /** The editor keys are in the pass's result exactly when listed, with the background and foreground strings. */
  lemma RuledEditorKeys(background: Color, keys: seq<string>, ops: ColorOps, random: nat -> real)
    requires InRange(background)
    ensures var ruled := RuledColors(background, keys, ops, random);
      && (EditorBackground in ruled <==> EditorBackground in keys)
      && (EditorForeground in ruled <==> EditorForeground in keys)
      && (EditorBackground in ruled ==> ruled[EditorBackground] == ToString(background))
      && (EditorForeground in ruled ==> ruled[EditorForeground] == ForegroundText(background, ops, random))
  {
    var m0 := map[ForegroundKey := ForegroundText(background, ops, random)];
    var p := PaletteOf(background, ops, random);
    var draw0 := ForegroundDraws(background);
    EditorKeyRules();
    DispatchKeys(keys, m0, p, draw0);
    DispatchValues(keys, m0, p, draw0);
    RuledKeysMembers(keys);
    assert EditorBackground !in m0 && EditorForeground !in m0;
  }

  /**
   * The theme `generateColors` returns: the per-key pass, then
   * `fillInTabColors` applied to its result.
   */
  ghost predicate IsGeneratedTheme(background: Color, keys: seq<string>, ops: ColorOps, random: nat -> real,
                                   colors: map<string, string>)
    requires InRange(background)
  {
    var ruled := RuledColors(background, keys, ops, random);
    && EditorBackground in ruled && IsParsable(ruled[EditorBackground])
    && EditorForeground in ruled && IsParsable(ruled[EditorForeground])
    && TabColorsFilled(keys, ruled, ops, colors)
  }

  /** What `generateColors` returns, with the four lines it logs. */
  datatype Generated = Generated(colors: map<string, string>, progress: string, prefixLine: string,
                                 suffixLine: string, wordLine: string)

  /** The lines logged by `warnAboutMissingCustomizations` for the generated colors. */
  ghost predicate Logged(g: Generated, keys: seq<string>) {
    var notDone := Diagnostics.NotDone(g.colors, keys);
    && g.progress == Diagnostics.ProgressLine(|g.colors|, |keys|)
    && Diagnostics.DescribesTopCounts(g.prefixLine, Diagnostics.NotDonePrefixes, Diagnostics.Tally(Diagnostics.Prefixes(notDone)))
    && Diagnostics.DescribesTopCounts(g.suffixLine, Diagnostics.NotDoneSuffixes, Diagnostics.Tally(Diagnostics.Suffixes(notDone)))
    && Diagnostics.DescribesTopCounts(g.wordLine, Diagnostics.NotDoneWords, Diagnostics.Tally(Diagnostics.AllWords(notDone)))
  }

  /**
   * `generateColors`. It throws, in `fillInTabColors`, exactly when the
   * keys lack `editor.background` or `editor.foreground`.
   */
  method GenerateColors(background: Color, keys: seq<string>, ops: ColorOps, random: nat -> real)
    returns (r: Result<Generated, string>)
    requires InRange(background) && ForegroundsRound(ops) && 0.0 <= random(0) < 1.0
    ensures r.Failure? <==> EditorBackground !in keys || EditorForeground !in keys
    ensures r.Success? ==> IsGeneratedTheme(background, keys, ops, random, r.value.colors) && Logged(r.value, keys)
  {
    var foreground := ForegroundColorFromBackground(background, random(0), ops);
    var foregroundText := ToString(foreground);
    var customizations := map[ForegroundKey := foregroundText];
    var draw;
    customizations, draw := ApplyRules(keys, customizations, background, foregroundText,
      GeneratedColors(background, ops, random), ForegroundDraws(background));

    RuledEditorKeys(background, keys, ops, random);
    ForegroundTextWellFormed(background, ops, random);
    InRangeRoundsToByte(background);
    ParseToString(background);
    var filled := FillInTabColors(keys, customizations, ops);
    if filled.Failure? {
      return Failure(filled.error);
    }
    var progress, prefixLine, suffixLine, wordLine :=
      Diagnostics.WarnAboutMissingCustomizations(filled.value, keys);
    r := Success(Generated(filled.value, progress, prefixLine, suffixLine, wordLine));
  }

  /** `foreground` holds no dot, so no rule matches it. */
  lemma ForegroundKeyHasNoRule()
    ensures RuleFor(ForegroundKey) == Skip
  {
    RuleForSpelledOut(ForegroundKey);
  }

  /** The entries `generateColors` always writes are not tab keys. */
  lemma EntryKeysAreNotTabKeys()
    ensures !IsTabBorderKey(ForegroundKey) && !IsTabBorderKey(EditorBackground) && !IsTabBorderKey(EditorForeground)
    ensures ForegroundKey !in FixedTabKeys && EditorBackground !in FixedTabKeys && EditorForeground !in FixedTabKeys
  {
    assert ForegroundKey[0] != 't' && EditorBackground[0] != 't' && EditorForeground[0] != 't';
  }

  /**
   * The theme holds the `foreground` entry, the fixed tab keys, and the
   * listed keys that have a rule or are tab border keys; nothing else. So
   * a listed key that no rule matches is left out, and every key of the
   * theme is listed, is `foreground` or is a fixed tab key.
   */
  lemma ThemeKeys(background: Color, keys: seq<string>, ops: ColorOps, random: nat -> real, colors: map<string, string>)
    requires InRange(background) && IsGeneratedTheme(background, keys, ops, random, colors)
    ensures forall k :: k in colors <==>
      k == ForegroundKey || k in FixedTabKeys || (k in keys && (RuleFor(k) != Skip || IsTabBorderKey(k)))
  {
    RuledKeysAndForeground(background, keys, ops, random);
    TabBorderKeysMembers(keys);
  }

  /**
   * The per-key pass on its own: it keeps `foreground` and adds exactly the
   * listed keys that some rule matches.
   */
  lemma RuledKeysAndForeground(background: Color, keys: seq<string>, ops: ColorOps, random: nat -> real)
    requires InRange(background)
    ensures var ruled := RuledColors(background, keys, ops, random);
      && (forall k :: k in ruled <==> k == ForegroundKey || (k in keys && RuleFor(k) != Skip))
      && ForegroundKey in ruled && ruled[ForegroundKey] == ForegroundText(background, ops, random)
  {
    var m0 := map[ForegroundKey := ForegroundText(background, ops, random)];
    var p := PaletteOf(background, ops, random);
    DispatchKeys(keys, m0, p, ForegroundDraws(background));
    DispatchValues(keys, m0, p, ForegroundDraws(background));
    RuledKeysMembers(keys);
    ForegroundKeyHasNoRule();
  }

  /** The background with its channels rounded, as `parse(background.toString())` gives it back. */
  function Rounded(c: Color): (r: Color)
    requires InRange(c)
    ensures IsByteColor(r)
    ensures Abs(r.r - c.r) <= 0.5 && Abs(r.g - c.g) <= 0.5 && Abs(r.b - c.b) <= 0.5
  {
    Color(Round(c.r) as real, Round(c.g) as real, Round(c.b) as real)
  }

  /** `foreground`, `editor.background` and `editor.foreground` keep what the per-key pass wrote. */
  lemma ThemeEntries(background: Color, keys: seq<string>, ops: ColorOps, random: nat -> real, colors: map<string, string>)
    requires InRange(background) && IsGeneratedTheme(background, keys, ops, random, colors)
    ensures var fg := ForegroundText(background, ops, random);
      && ForegroundKey in colors && colors[ForegroundKey] == fg
      && EditorBackground in colors && colors[EditorBackground] == ToString(background)
      && EditorForeground in colors && colors[EditorForeground] == fg
  {
    RuledKeysAndForeground(background, keys, ops, random);
    RuledEditorKeys(background, keys, ops, random);
    EntryKeysAreNotTabKeys();
    TabBorderKeysMembers(keys);
  }

  /**
   * A listed key that is no tab key holds what its suffix rule writes: the
   * background string for the border rule, a color generated from the
   * background for the background rules, the foreground string for the
   * foreground rules.
   */
  lemma ThemeRuledValues(background: Color, keys: seq<string>, ops: ColorOps, random: nat -> real, colors: map<string, string>)
    requires InRange(background) && IsGeneratedTheme(background, keys, ops, random, colors)
    ensures var p := PaletteOf(background, ops, random);
      var tabKeys := TabBorderKeys(keys) + FixedTabKeys;
      && (forall k :: k in keys && k !in tabKeys && RuleFor(k) == UseBackground ==>
            k in colors && colors[k] == ToString(background))
      && (forall k :: k in keys && k !in tabKeys && RuleFor(k) == Generate ==>
            k in colors && exists j: nat :: colors[k] == Text(p, Generate, j))
      && (forall k :: k in keys && k !in tabKeys && RuleFor(k) == UseForeground ==>
            k in colors && colors[k] == ForegroundText(background, ops, random))
  {
    RuledValues(background, keys, ops, random);
  }

  /** The per-key pass on its own: a listed key with a rule holds what that rule writes. */
  lemma RuledValues(background: Color, keys: seq<string>, ops: ColorOps, random: nat -> real)
    requires InRange(background)
    ensures var ruled := RuledColors(background, keys, ops, random);
      var p := PaletteOf(background, ops, random);
      && (forall k :: k in keys && RuleFor(k) == UseBackground ==> k in ruled && ruled[k] == ToString(background))
      && (forall k :: k in keys && RuleFor(k) == Generate ==>
            k in ruled && exists j: nat :: ruled[k] == Text(p, Generate, j))
      && (forall k :: k in keys && RuleFor(k) == UseForeground ==>
            k in ruled && ruled[k] == ForegroundText(background, ops, random))
  {
    var m0 := map[ForegroundKey := ForegroundText(background, ops, random)];
    var p := PaletteOf(background, ops, random);
    DispatchKeys(keys, m0, p, ForegroundDraws(background));
    DispatchValues(keys, m0, p, ForegroundDraws(background));
    RuledKeysMembers(keys);
  }

  /**
   * The tab keys: a listed tab border key that is not fixed holds the
   * background string; the fixed ones hold the rounded background or its
   * blends with the parsed foreground a third and two thirds of the way.
   */
  lemma ThemeTabValues(background: Color, keys: seq<string>, ops: ColorOps, random: nat -> real, colors: map<string, string>)
    requires InRange(background) && IsGeneratedTheme(background, keys, ops, random, colors)
    ensures var fg := ForegroundText(background, ops, random);
      && IsParsable(fg)
      && (forall k :: k in TabBorderKeys(keys) && k !in FixedTabKeys ==> k in colors && colors[k] == ToString(background))
      && (forall k :: k in BackgroundTabKeys ==> k in colors && colors[k] == ToString(Rounded(background)))
      && (forall k :: k in DimBackgroundKeys ==>
            k in colors && colors[k] == ToString(ops.createInBetween(Rounded(background), Parse(fg), 0.33)))
      && (forall k :: k in DimForegroundKeys ==>
            k in colors && colors[k] == ToString(ops.createInBetween(Rounded(background), Parse(fg), 0.66)))
  {
    RuledEditorKeys(background, keys, ops, random);
    InRangeRoundsToByte(background);
    ParseToString(background);
  }

  /**
   * What the generator needs of `createInBetween`: a blend of two byte
   * colors has channels that round into 0..255.
   */
  ghost predicate BlendsRound(ops: ColorOps) {
    forall a: Color, b: Color, f: real | IsByteColor(a) && IsByteColor(b) && 0.0 <= f <= 1.0
      :: RoundsToByte(ops.createInBetween(a, b, f))
  }

  /** A generated color's string is a `#rrggbb` string. */
  lemma GeneratedTextWellFormed(background: Color, ops: ColorOps, saturationDraw: real, lightnessDraw: real)
    requires InRange(background) && ValidOps(ops)
    ensures IsCanonicalHex(ToString(GenerateColor(background, ops, saturationDraw, lightnessDraw)))
  {
    var params := GenerationParams(background, saturationDraw, lightnessDraw);
    GenerationParamsBounds(background, saturationDraw, lightnessDraw);
    var c := ops.fromHsl(params.hue, params.saturation, params.lightness);
    assert RoundsToByte(c);
    ToStringWellFormed(c);
  }

  /** The strings `fillInTabColors` writes for the fixed tab keys are `#rrggbb` strings. */
  lemma TabTextsWellFormed(background: Color, ops: ColorOps, random: nat -> real)
    requires InRange(background) && ForegroundsRound(ops) && BlendsRound(ops) && 0.0 <= random(0) < 1.0
    ensures var fg := ForegroundText(background, ops, random);
      && IsParsable(fg)
      && IsCanonicalHex(ToString(Rounded(background)))
      && IsCanonicalHex(ToString(ops.createInBetween(Rounded(background), Parse(fg), 0.33)))
      && IsCanonicalHex(ToString(ops.createInBetween(Rounded(background), Parse(fg), 0.66)))
  {
    var fg := ForegroundText(background, ops, random);
    ForegroundTextWellFormed(background, ops, random);
    ToStringWellFormed(Rounded(background));
    ToStringWellFormed(ops.createInBetween(Rounded(background), Parse(fg), 0.33));
    ToStringWellFormed(ops.createInBetween(Rounded(background), Parse(fg), 0.66));
  }

  /**
   * What a generated theme is made of, over the strings it holds: which
   * keys it has, and which string each kind of key holds.
   */
  ghost predicate ThemeFacts(colors: map<string, string>, keys: seq<string>, p: Palette,
                             backgroundText: string, roundedText: string, dimmedBackgroundText: string,
                             dimmedForegroundText: string)
  {
    var tabKeys := TabBorderKeys(keys) + FixedTabKeys;
    && (forall k :: k in colors <==>
          k == ForegroundKey || k in FixedTabKeys || (k in keys && (RuleFor(k) != Skip || IsTabBorderKey(k))))
    && ForegroundKey in colors && colors[ForegroundKey] == p.foreground
    && (forall k :: k in TabBorderKeys(keys) && k !in FixedTabKeys ==> k in colors && colors[k] == backgroundText)
    && (forall k :: k in BackgroundTabKeys ==> k in colors && colors[k] == roundedText)
    && (forall k :: k in DimBackgroundKeys ==> k in colors && colors[k] == dimmedBackgroundText)
    && (forall k :: k in DimForegroundKeys ==> k in colors && colors[k] == dimmedForegroundText)
    && (forall k :: k in keys && k !in tabKeys && RuleFor(k) == UseBackground ==>
          k in colors && colors[k] == backgroundText)
    && (forall k :: k in keys && k !in tabKeys && RuleFor(k) == Generate ==>
          k in colors && exists j: nat :: colors[k] == Text(p, Generate, j))
    && (forall k :: k in keys && k !in tabKeys && RuleFor(k) == UseForeground ==>
          k in colors && colors[k] == p.foreground)
  }

  /** The facts above hold of every generated theme. */
  lemma GeneratedThemeFacts(background: Color, keys: seq<string>, ops: ColorOps, random: nat -> real,
                            colors: map<string, string>)
    requires InRange(background) && IsGeneratedTheme(background, keys, ops, random, colors)
    ensures var fg := ForegroundText(background, ops, random);
      && IsParsable(fg)
      && ThemeFacts(colors, keys, PaletteOf(background, ops, random), ToString(background),
                    ToString(Rounded(background)),
                    ToString(ops.createInBetween(Rounded(background), Parse(fg), 0.33)),
                    ToString(ops.createInBetween(Rounded(background), Parse(fg), 0.66)))
  {
    ThemeKeys(background, keys, ops, random, colors);
    ThemeEntries(background, keys, ops, random, colors);
    ThemeTabValues(background, keys, ops, random, colors);
    ThemeRuledValues(background, keys, ops, random, colors);
  }

  /**
   * Every value of such a theme is the background string, the rounded
   * background, the foreground string, one of the two blends, or a
   * generated color.
   */
  lemma ThemeValueSources(colors: map<string, string>, keys: seq<string>, p: Palette, backgroundText: string,
                          roundedText: string, dimmedBackgroundText: string, dimmedForegroundText: string,
                          k: string)
    requires ThemeFacts(colors, keys, p, backgroundText, roundedText, dimmedBackgroundText, dimmedForegroundText)
    requires k in colors
    ensures || colors[k] == backgroundText
            || colors[k] == roundedText
            || colors[k] == p.foreground
            || colors[k] == dimmedBackgroundText
            || colors[k] == dimmedForegroundText
            || exists j: nat :: colors[k] == Text(p, Generate, j)
  {
    if k !in FixedTabKeys && k !in TabBorderKeys(keys) && k != ForegroundKey {
      TabBorderKeysMembers(keys);
      assert k in keys && RuleFor(k) != Skip;
    }
  }

  /** Every generated color prints as a `#rrggbb` string. */
  lemma GeneratedTextsWellFormed(background: Color, ops: ColorOps, random: nat -> real)
    requires InRange(background) && ValidOps(ops)
    ensures forall j: nat :: IsCanonicalHex(Text(PaletteOf(background, ops, random), Generate, j))
  {
    forall j: nat ensures IsCanonicalHex(Text(PaletteOf(background, ops, random), Generate, j)) {
      GeneratedTextIs(background, ops, random, j);
      GeneratedTextWellFormed(background, ops, random(j), random(j + 1));
    }
  }

  /**
   * Every value of the theme is a `#rrggbb` string, when the color
   * operations keep their results in range.
   */
  lemma ThemeWellFormed(background: Color, keys: seq<string>, ops: ColorOps, random: nat -> real, colors: map<string, string>)
    requires InRange(background) && ValidOps(ops) && BlendsRound(ops) && 0.0 <= random(0) < 1.0
    requires IsGeneratedTheme(background, keys, ops, random, colors)
    ensures forall k :: k in colors ==> IsCanonicalHex(colors[k])
  {
    var fg := ForegroundText(background, ops, random);
    var p := PaletteOf(background, ops, random);
    ValidOpsRoundsForegrounds(ops);
    ForegroundTextWellFormed(background, ops, random);
    TabTextsWellFormed(background, ops, random);
    InRangeRoundsToByte(background);
    ToStringWellFormed(background);
    GeneratedTextsWellFormed(background, ops, random);
    GeneratedThemeFacts(background, keys, ops, random, colors);
    var dim1 := ToString(ops.createInBetween(Rounded(background), Parse(fg), 0.33));
    var dim2 := ToString(ops.createInBetween(Rounded(background), Parse(fg), 0.66));
    forall k | k in colors ensures IsCanonicalHex(colors[k]) {
      ThemeValueSources(colors, keys, p, ToString(background), ToString(Rounded(background)), dim1, dim2, k);
    }
  }

}
