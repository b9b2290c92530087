# Theminator color core, modelled in Dafny

Theminator is a VS Code extension that builds a complete color theme from
one background color. This project models its core, the `Color` value type
(`src/color.ts`) and the theme generator (`src/colorsGenerator.ts`), and
proves properties of the model.

The model has six modules, one file each:

- `wrappers.dfy` (`Wrappers`): the `Result` datatype. It is the failure path
  when the generator throws.
- `js_strings.dfy` (`JsStrings`): the JavaScript string built-ins the source
  relies on. These are `endsWith`, `startsWith`, `includes`, `toLowerCase`,
  `split(".")`, `lastIndexOf` and decimal printing.
- `colors.dfy` (`Colors`): `Color` as an immutable RGB triple.
  - Channels are `real`, because `hsl` produces fractional channels.
  - It covers `parse`, `toString`, `max`, `min`, `lightness`, `hue`,
    `saturation`, `contrast` and `hsl`.
  - `hsl` is modelled as written, and as intended (see Findings). The
    intended version reads each component's own argument and uses exact
    thirds instead of 0.333 and 0.666. Both changes are needed to keep the
    channels in 0-255.
- `cloud_words.dfy` (`CloudWords`): `splitIntoCloudWords`. It is a loop
  proved against a recursive definition of the words of a key.
- `diagnostics.dfy` (`Diagnostics`): `warnAboutMissingCustomizations` and
  `logTopCounts`.
  - The counting loops are proved against tallies of the keys without a
    color.
  - The sort is an insertion sort proved sorted and a permutation of the
    tally's keys.
  - The logged line is proved to list a valid top three.
- `theme_generator.dfy` (`ThemeGenerator`): `generateColors` and its
  helpers.
  - The per-key rule chain, as a rule table with its first-match semantics.
  - `generateColor` and `foregroundColorFromBackground`, as the HSL
    parameters they choose.
  - The per-key loop, proved against a functional pass `Dispatch`.
  - `fillInTabColors`, as three stages: the early writes, the border loop
    and the late writes.
  - Whole-theme properties: which keys the theme holds, where every value
    comes from, and that every value is a `#rrggbb` string.

The customizations record is a `map<string, string>` that the methods
thread through and return. The source updates it in place, but nothing else
holds a reference to it. `Math.random()` is a parameter `random: nat -> real`,
whose n-th value is the n-th draw. The foreground uses draw 0, for a grey
background only. Each generated color uses the next two draws: saturation,
then lightness.

## Model

| member | source | states |
|---|---|---|
| JsStrings.Split | src/colorsGenerator.ts:76-77 | `split(".")` gives at least one piece, no piece holds a dot, and joining the pieces with dots gives the key back |
| JsStrings.FirstSegment | src/colorsGenerator.ts:76 | the prefix holds no dot, is a prefix of the key, and is all of it or is followed by a dot |
| JsStrings.LastSegment | src/colorsGenerator.ts:77 | the suffix holds no dot, is a suffix of the key, and is all of it or is preceded by a dot |
| JsStrings.LastIndexOf | src/colorsGenerator.ts:108 | the result is -1 or a position where the separator occurs, and it occurs at no later position |
| JsStrings.ToLower | src/colorsGenerator.ts:233 | same length, each character lowercased |
| JsStrings.LowerChar | src/colorsGenerator.ts:132-136 | the result is never uppercase: an uppercase letter moves to its lowercase letter, and any other character is unchanged |
| JsStrings.NatToString | src/colorsGenerator.ts:61-65 | the decimal rendering is non-empty, all digits, and has no leading zero |
| JsStrings.DecimalValueOfNatToString | src/colorsGenerator.ts:61-65 | reading the decimal rendering back gives the number |
| Colors.Round | src/color.ts:159-161 | `Math.round` gives the integer within a half below and strictly under a half above |
| Colors.Frac | src/color.ts:56-58 | `x % 1` of a non-negative number is in [0, 1), equals `x` below 1, and differs from `x` by an integer |
| Colors.Abs | src/color.ts:124 | `Math.abs` is non-negative and is `x` or `-x` |
| Colors.Parse | src/color.ts:21-27 | the three parsed channels are integers in 0..255 |
| Colors.ByteToHex | src/color.ts:159-161 | a channel that rounds into 0..255 is written as exactly two lowercase digits, high digit first |
| Colors.ToStringWellFormed | src/color.ts:156-163 | for channels that round into 0..255, `toString` writes `#` and six lowercase digits, and each pair holds the rounded channel |
| Colors.ParseToString | src/color.ts:21-27 | `parse(c.toString())` succeeds and gives back the rounded channels |
| Colors.ParseToStringExact | src/color.ts:21-27 | for integer channels in 0..255, `parse(c.toString())` gives back `c` |
| Colors.ToStringParse | src/color.ts:156-163 | a lowercase `#rrggbb` string is rebuilt exactly by `toString(parse(s))` |
| Colors.ParseReadsOnlyPositionsOneToSix | src/color.ts:21-27 | two strings with the same characters 1 to 6 parse to the same color |
| Colors.Max | src/color.ts:138-140 | the result is one of the channels and at least each of them |
| Colors.Min | src/color.ts:143-145 | the result is one of the channels and at most each of them |
| Colors.Lightness | src/color.ts:128-135 | lightness is the midpoint of max and min over 255, in [0, 1] for channels in range |
| Colors.Hue | src/color.ts:84-109 | 0 for a grey; otherwise in [0, 360), in the sector of the largest channel (red first, then green) |
| Colors.Saturation | src/color.ts:112-125 | 0 for black and for greys; otherwise in (0, 1] |
| Colors.Contrast | src/color.ts:147-154 | the ratio is between 1 and 21, and it is 1 exactly when the lightnesses are equal |
| Colors.ContrastSymmetric | src/color.ts:147-154 | the contrast does not depend on the order of the two colors |
| Colors.AnchorsBounds | src/color.ts:45-52 | for saturation and lightness in [0, 1], `0 <= temporary2 <= temporary1 <= 1` |
| Colors.HslGrey | src/color.ts:40-43 | saturation 0 gives the grey `lightness * 255`, whose hue and saturation are 0 and whose lightness is the one asked for |
| Colors.HslTestScenario | src/test/suite/color.test.ts:7-15 | `hsl(42, 0.3, 0.7)` is in range, prints as `#c9bc9c`, and has lightness 0.7 and hue 42 |
| Colors.HslGreenChannelCounterexample | src/color.ts:67-70 | as written, `hsl(200, 1, 0.5)` has a negative green channel and prints as `#00-155ff` |
| Colors.HslIntendedInRange | src/color.ts:34-81 | as intended, a hue in [0, 360) and saturation and lightness in [0, 1] give channels in 0-255, a `#rrggbb` string, and the lightness asked for |
| Colors.ThirdsReachAnchors | src/color.ts:56-79 | as intended, the three hue parameters a third apart keep every channel between the anchors, and one channel reaches each anchor |
| Colors.HslIntendedExample | src/color.ts:34-81 | as intended, `hsl(200, 1, 0.5)` is `#00aaff` |
| Colors.OwnArgumentAloneIsNotEnough | src/color.ts:56-70 | reading the component's own argument but keeping 0.666 still fails: the green channel of `hsl(239.9, 1, 0.5)` rounds to -1 |
| Colors.ComponentAsWrittenBounds | src/color.ts:61-75 | as written, a component lies between `temporary2 - 2.004 * (temporary1 - temporary2)` and `temporary2 + 3.996 * (temporary1 - temporary2)` |
| Colors.HslForegroundInRange | src/color.ts:34-81 | as written, `hsl(hue, 0.1, 0.1)` and `hsl(hue, 0.1, 0.9)` have channels in 0-255 for every hue in [0, 360) |
| CloudWords.RunLengthSpec | src/colorsGenerator.ts:123-141 | the run of word characters is as long as possible: it holds no dot and no uppercase letter, and the next character is one of those |
| CloudWords.WordsExample | src/colorsGenerator.ts:119 | the documented example: `"ape.bearCow"` gives `["ape", "bear", "cow"]` |
| CloudWords.FirstWord | src/colorsGenerator.ts:123-141 | a word ended by a dot, an uppercase letter or the end of the key comes out, lowercased, as the first word |
| CloudWords.WordsAreCloudWords | src/colorsGenerator.ts:120-148 | every word is non-empty and holds no dot and no uppercase letter |
| CloudWords.WordsSpellKey | src/colorsGenerator.ts:120-148 | the words run together spell the key without its dots, lowercased |
| CloudWords.SplitIntoCloudWords | src/colorsGenerator.ts:120-148 | the loop returns exactly the words of the key |
| Diagnostics.TallyCounts | src/colorsGenerator.ts:78-83 | the tally counts exactly the words that occur, each as often as it occurs |
| Diagnostics.TallyTotal | src/colorsGenerator.ts:78-83 | the counts of a tally add up to the number of words tallied |
| Diagnostics.NotDoneKeys | src/colorsGenerator.ts:70-74 | exactly the listed keys without a color are kept, each as often as it is listed |
| Diagnostics.SegmentsOfKeys | src/colorsGenerator.ts:76-77 | position by position, the prefixes and suffixes tallied are those of the keys without a color |
| Diagnostics.NotDoneSegmentTotals | src/colorsGenerator.ts:70-80 | the prefix counts and the suffix counts each add up to the number of keys without a color |
| Diagnostics.AllWordsAreCloudWords | src/colorsGenerator.ts:81-83 | every word counted in the word cloud is a cloud word |
| Diagnostics.PercentDone | src/colorsGenerator.ts:58-60 | the percentage is the floor of `100 * generated / total`, and at most 100 when no more colors than keys |
| Diagnostics.EntryReadsBack | src/colorsGenerator.ts:104 | an entry is a quote, the key, `" (`, decimal digits that read back as the count, and `)` |
| Diagnostics.Reversed | src/colorsGenerator.ts:105 | `reverse()` keeps the length and reads the keys from the end |
| Diagnostics.InsertByCount | src/colorsGenerator.ts:98 | one insertion keeps the keys distinct and sorted by count, and adds exactly the new key |
| Diagnostics.SortKeysByCount | src/colorsGenerator.ts:97-98 | the sorted keys are a permutation of the tally's keys (distinct, the same members, the same number), in non-decreasing order of count |
| Diagnostics.TopOfSorted | src/colorsGenerator.ts:102-105 | the last three keys of the sorted list, reversed, are a valid top three: the largest counts, largest first |
| Diagnostics.LogTopCounts | src/colorsGenerator.ts:96-117 | the line logged lists a valid top three, joined by `", "` with the last `", "` turned into `" and "` |
| Diagnostics.TopCountsPhrase | src/colorsGenerator.ts:91-93 | for comma-free keys the line reads `"x" (14), "y" (9) and "z" (2)` for three keys, `"x" (14) and "y" (9)` for two, and a single entry for one |
| Diagnostics.ReplaceLastSeparator | src/colorsGenerator.ts:108-114 | the `", "` before a comma-free tail is the one replaced by `" and "` |
| Diagnostics.CountWords | src/colorsGenerator.ts:81-83 | the inner loop adds the tally of the key's cloud words |
| Diagnostics.CountNotDone | src/colorsGenerator.ts:67-84 | the three counts are the tallies of the prefixes, suffixes and cloud words of the keys without a color |
| Diagnostics.WarnAboutMissingCustomizations | src/colorsGenerator.ts:54-89 | the progress line, then for prefixes, suffixes and cloud words of the keys without a color a line listing a valid top three |
| ThemeGenerator.RuleForByRows | src/colorsGenerator.ts:17-45 | the rule of a key is that of the first group of tests that passes, in the source's order |
| ThemeGenerator.RuleForSpelledOut | src/colorsGenerator.ts:17-45 | the rule chain spelled out: `editor.background` and border suffixes take the background, background suffixes a generated color, foreground suffixes the foreground, anything else nothing |
| ThemeGenerator.EndsWithDotWord | src/colorsGenerator.ts:20-40 | a key ends with `"." + word` exactly when it holds a dot and the word is the text after its last dot |
| ThemeGenerator.BackgroundSuffixTestsByLastWord | src/colorsGenerator.ts:20-33 | each border and background suffix test passes exactly when the key holds a dot and its last segment is that word |
| ThemeGenerator.ForegroundSuffixTestsByLastWord | src/colorsGenerator.ts:37-40 | each foreground suffix test passes exactly when the key holds a dot and its last segment is that word |
| ThemeGenerator.RuleByLastWord | src/colorsGenerator.ts:17-45 | apart from `editor.background`, the rule depends only on the text after the last dot, and a key without a dot gets nothing |
| ThemeGenerator.EditorKeyRules | src/colorsGenerator.ts:18-42 | `editor.background` takes the background and `editor.foreground` takes the foreground |
| ThemeGenerator.ForegroundKeyHasNoRule | src/colorsGenerator.ts:15-45 | the `foreground` entry is never overwritten by the per-key loop |
| ThemeGenerator.Clamp | src/colorsGenerator.ts:187-199 | the clamp keeps values in [0, 1] unchanged and sends those below 0 to 0 and those above 1 to 1 |
| ThemeGenerator.GenerationParamsBounds | src/colorsGenerator.ts:176-202 | `generateColor` keeps the hue, keeps a grey base grey, keeps saturation and lightness in [0, 1], and for draws in [0, 1] keeps each within 0.1 of the base's |
| ThemeGenerator.GenerationCentered | src/colorsGenerator.ts:180-194 | draws of one half give the base's own hue, saturation and lightness |
| ThemeGenerator.GenerationMonotone | src/colorsGenerator.ts:182-199 | a larger draw never gives a smaller saturation or lightness |
| ThemeGenerator.OppositeHue | src/colorsGenerator.ts:157 | `(hue + 180) % 360` stays in [0, 360) and is 180 degrees away from the hue |
| ThemeGenerator.ForegroundParams | src/colorsGenerator.ts:150-168 | saturation 0.1; lightness 0.1 on a perceived-light background and 0.9 otherwise; the opposite hue, or a random one for a grey background |
| ThemeGenerator.ForegroundTextWellFormed | src/colorsGenerator.ts:14-15 | when `hueSaturationLightness` keeps the foreground's colors (saturation 0.1, lightness 0.1 or 0.9) in range (`ForegroundsRound`), the foreground string is `#rrggbb`, so `fillInTabColors` can parse it |
| ThemeGenerator.AsWrittenHslRoundsForegrounds | src/colorsGenerator.ts:150-168 | `Color.hsl` as written keeps every foreground color in range (`ForegroundsRound`), although it breaks `ValidOps` |
| ThemeGenerator.AsWrittenGeneratedColorMalformed | src/colorsGenerator.ts:176-202 | with `Color.hsl` as written, `generateColor` on the background `#00aaff` with draws of one half writes the malformed `#00-155ff` |
| ThemeGenerator.RuledKeysMembers | src/colorsGenerator.ts:17-45 | the keys the loop writes are exactly the listed keys that have a rule |
| ThemeGenerator.DispatchStep | src/colorsGenerator.ts:17-45 | one loop iteration advances the pass by exactly one key |
| ThemeGenerator.DispatchKeys | src/colorsGenerator.ts:17-45 | the pass adds exactly the listed keys that have a rule |
| ThemeGenerator.DispatchValues | src/colorsGenerator.ts:17-45 | each key with a rule holds a string its rule writes, and every other entry keeps its value |
| ThemeGenerator.ApplyRule | src/colorsGenerator.ts:18-44 | the loop body writes what the key's rule writes and takes two draws for a generated color |
| ThemeGenerator.ApplyRules | src/colorsGenerator.ts:17-45 | the loop computes the pass `Dispatch` over the keys |
| ThemeGenerator.TabBorderKeysMembers | src/colorsGenerator.ts:229-237 | the border keys are exactly the listed `tab.` keys whose lowercase form includes `border` |
| ThemeGenerator.NoBorderIn | src/colorsGenerator.ts:233 | a key with no `b` followed by `o`, in either case, does not include `border` |
| ThemeGenerator.UnfocusedKeyIsNotBorder | src/colorsGenerator.ts:221-237 | the four keys written before the border loop are not border keys, so the loop keeps their values |
| ThemeGenerator.EditorBackgroundIsNotBorder | src/colorsGenerator.ts:229-236 | the border loop never rewrites `editor.background` |
| ThemeGenerator.SetTabBorders | src/colorsGenerator.ts:229-237 | the border loop gives every listed tab border key the editor background's string and changes nothing else |
| ThemeGenerator.WriteEarlyTabKeys | src/colorsGenerator.ts:221-227 | the unfocused active and hover tab backgrounds get the background, their foregrounds get the dimmed foreground, and nothing else changes |
| ThemeGenerator.WriteLateTabKeys | src/colorsGenerator.ts:239-250 | the inactive tab and group-header keys get the dimmed background or dimmed foreground, the tabs border gets the background, and nothing else changes |
| ThemeGenerator.StagesCompose | src/colorsGenerator.ts:221-250 | early writes, then border copies, then late writes: late wins, early keys survive, and every other key keeps its value |
| ThemeGenerator.TabStagesCompose | src/colorsGenerator.ts:221-250 | the three stages together give exactly the tab colors `fillInTabColors` promises |
| ThemeGenerator.FillInTabColors | src/colorsGenerator.ts:211-251 | fails exactly when `editor.background` or `editor.foreground` is missing; otherwise writes the fixed tab keys, the tab border keys and nothing else |
| ThemeGenerator.RuledEditorKeys | src/colorsGenerator.ts:17-45 | after the loop, the editor keys are present exactly when listed, with the background and foreground strings |
| ThemeGenerator.RuledKeysAndForeground | src/colorsGenerator.ts:14-45 | after the loop the record holds `foreground` and exactly the listed keys with a rule |
| ThemeGenerator.RuledValues | src/colorsGenerator.ts:17-45 | after the loop each listed key holds what its rule writes |
| ThemeGenerator.GenerateColors | src/colorsGenerator.ts:8-52 | for any `hueSaturationLightness` that keeps the foreground's colors in range, `Color.hsl` as written included: fails exactly when `editor.background` or `editor.foreground` is not listed; otherwise returns the loop's result with the tab colors filled in, and the four logged lines |
| ThemeGenerator.ThemeKeys | src/test/suite/colorsGenerator.test.ts:9-14 | the theme holds `foreground`, the fixed tab keys, and the listed keys that have a rule or are tab border keys, and nothing else |
| ThemeGenerator.ThemeEntries | src/colorsGenerator.ts:14-42 | `foreground` and `editor.foreground` hold the foreground string and `editor.background` the background string |
| ThemeGenerator.ThemeRuledValues | src/colorsGenerator.ts:17-45 | a listed key that is not a tab key holds what its rule writes |
| ThemeGenerator.ThemeTabValues | src/colorsGenerator.ts:215-250 | tab border keys hold the background string; fixed tab keys hold the rounded background or its blends a third and two thirds of the way to the foreground |
| ThemeGenerator.Rounded | src/colorsGenerator.ts:215 | `parse(background.toString())` is the background with channels rounded: a byte color within half a unit |
| ThemeGenerator.GeneratedTextIs | src/colorsGenerator.ts:28-33 | at draw `j`, the loop writes the string of the color generated from draws `j` and `j + 1` |
| ThemeGenerator.GeneratedTextWellFormed | src/colorsGenerator.ts:176-202 | when `hueSaturationLightness` keeps every HSL triple in range in 0..255 (`ValidOps`), every generated color prints as `#rrggbb` |
| ThemeGenerator.TabTextsWellFormed | src/colorsGenerator.ts:215-219 | when `createInBetween` keeps blends of byte colors in range (`BlendsRound`) and the foreground's colors round into 0..255 (`ForegroundsRound`), the rounded background and both blends print as `#rrggbb` |
| ThemeGenerator.GeneratedThemeFacts | src/colorsGenerator.ts:8-52 | a generated theme has exactly the keys above, each holding its kind's string |
| ThemeGenerator.ThemeValueSources | src/colorsGenerator.ts:8-52 | every value is the background, the rounded background, the foreground, a blend, or a generated color |
| ThemeGenerator.ThemeWellFormed | src/colorsGenerator.ts:8-52 | when `hueSaturationLightness` keeps every HSL triple in range in 0..255 (`ValidOps`) and `createInBetween` keeps blends of byte colors in range (`BlendsRound`), every value of a generated theme is a `#rrggbb` string; `Color.hsl` as written does not meet `ValidOps` |
| ThemeGenerator.IntendedHslIsValid | src/color.ts:34-81 | the intended HSL conversion meets what the generator needs of `hueSaturationLightness` |

## Left out

- `Color.hueSaturationLightness`, `Color.createInBetween` and `Color.perceivedLightness` are not part of this model. They are passed in as function values (`ColorOps`).
- `src/keys.ts` (the list of all keys) is not part of this model, so the two generator tests are stated for any key list.
- `console.log` becomes returned lines. `Math.random()` becomes the stream `random`. `extension.ts` and the webview panel are outside the core.
- JavaScript numbers are modelled as exact `real` and `int`. Floating-point rounding is not modelled, so `HslTestScenario` holds exactly where the test rounds the hue.
- Colors.Parse: requires hex digits at positions 1 to 6. On other text `parseInt` gives `NaN`, or a partial or negative value (`parseInt("-1", 16)` is -1, `parseInt("1g", 16)` is 1), which the model does not represent.
- Colors.Saturation: requires channels in 0-255. The source computes a value for any channels.
- Colors.Contrast: requires channels in 0-255. The source computes a value for any channels.
- ThemeGenerator.FillInTabColors: requires the editor strings to be parsable when present. A malformed one would give `NaN`, partial or negative channels in the source.
- ThemeGenerator.GenerateColors: requires that `hueSaturationLightness` give channels that round into 0..255 for the foreground's saturation 0.1 and lightness 0.1 or 0.9 (`ForegroundsRound`, which the as-written `Color.hsl` meets), and that the first draw is in [0, 1). Its results are stated through `IsGeneratedTheme`.
- ThemeGenerator.ThemeWellFormed: requires that `hueSaturationLightness` keep every HSL triple in range in 0..255 (`ValidOps`) and that blends of byte colors round into 0..255 (`BlendsRound`). The as-written `Color.hsl` does not meet `ValidOps`, so with it a generated color can print as a malformed string (`AsWrittenGeneratedColorMalformed`).
- ThemeGenerator.OppositeHue: covers hues in [0, 360), the only hues `hue()` returns.
- JsStrings.ToLower: maps ASCII letters only. The source's `toLowerCase` and `toUpperCase` cover all of Unicode.
- JsStrings.LowerChar: the uppercase test of `splitIntoCloudWords` (`IsUpper`) and the lowercasing are ASCII only, for the same reason.
- Diagnostics.SortKeysByCount: the order of keys with equal counts is not modelled. `Array.prototype.sort` is stable over `Object.keys` order, which lists integer-like keys first in numeric order and then the other keys in insertion order.
- The records of `generateColors` and `warnAboutMissingCustomizations` are `map`s. In the source, `customizations[key] !== undefined` and `counts[prefix] || 0` also see names inherited from `Object.prototype`, such as `constructor` or `toString`; the maps do not.
- Diagnostics.LogTopCounts: states only that the line lists some valid top three (the largest counts, largest first). It does not fix which one among keys with equal counts.
- Diagnostics.PercentText: with no keys, the model prints `NaN` or `Infinity` as JavaScript would, instead of computing a floor.
- ThemeGenerator.WriteEarlyTabKeys: the source loops over two-element arrays of key names. The model writes the four keys directly, with the same effect.
- ThemeGenerator.WriteLateTabKeys: writes the seven keys in the source's order, as direct updates.

## Findings

| source | as written | input that shows it | evidently intended | confidence | as-written member | corrected member |
|---|---|---|---|---|---|---|
| src/color.ts:69 | the third case of `toRgbComponent` interpolates with `temporaryR` instead of its own argument `temporaryX` | `Color.hsl(200, 1, 0.5)`: the green channel is about -340.5, and `toString` writes `#00-155ff` | interpolate with the component's own argument and use exact thirds instead of 0.333 and 0.666; both changes are needed, since with the argument fixed alone the green channel of `hsl(239.9, 1, 0.5)` still rounds to -1, outside 0-255 (`Colors.OwnArgumentAloneIsNotEnough`); together they give `#00aaff` and channels in 0-255 for every hue | not executed | Colors.HslGreenChannelCounterexample | Colors.HslIntendedInRange |
