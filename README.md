# FAST palette engine and listbox selection, in Dafny

This project models two sequential parts of the FAST web-components repository and proves properties of them.

**The colour palette engine** of `fast-components` (`PaletteRGBImpl` in `color/palette.ts`). It does three things:

- It builds a dense 257-entry saturation ramp from a base colour. The ramp's lightness parameter runs from 114 down to -14, beyond the LAB range at both ends, so the colours run from pure white down to pure black.
- It resamples that ramp into a palette. Each step of the walk targets a luminance one contrast step darker, by the WCAG 2.1 contrast ratio `(L1 + 0.05) / (L2 + 0.05)`. Every pair of neighbouring palette entries except the final one is proved to be at least one contrast step apart. The ramp's first entry is white, with luminance 1, so the first pick already lies one step below it. The final pair may be closer, because the last target is snapped to 0.
- It wraps the result in an immutable palette object. The palette answers `get`, `closestIndexOf` and `colorContrast`.

The colour-space primitives (LAB and HSL conversions, gamut clamping, interpolation, rounding, relative luminance) come from a floating-point library. They are record fields of type `Color.ColorPrimitives`, and `Color.Laws` states the few exact facts about them that the proofs use: luminances lie in [0, 1]; black and white have luminance 0 and 1; interpolation returns its end points at fractions 0 and 1; HSL lightness 0 and 1 mean black and white, in both directions; and rounding keeps black and white as they are. Swatches are objects, so `indexOf` compares them by reference, as Dafny compares class instances.

**The `Listbox` element** of `fast-foundation` (`listbox/listbox.ts`). This is its selection state machine:

- the selected index;
- the options it selects, with each option's `selected` and `checked` flags;
- the active descendant;
- the typeahead buffer and its expiry;
- the `multiple` and `disabled` flags;
- the keyboard, click, focus and mousedown handlers.

FAST observable properties run their change callback synchronously, and only when the assigned value differs from the current one. The methods `SetSelectedIndex`, `SetTypeaheadBuffer` and `SetMultiple` make that explicit, and the callbacks they call are ordinary methods. Options are objects whose `selected`, `checked` and `id` fields the listbox updates in place.

Files:

- `wrappers.dfy`: `Option` and `Result`.
- `sequences.dfy`: `indexOf`.
- `color.dfy`: the colour values and the primitives.
- `saturation_ramp.dfy`: `ramp`, `saturationBump` and `createSaturationPalette`.
- `palette_options.dfy`: the defaults and the merge done by `from`.
- `contrast_resampler.dfy`: `maxRelativeLuminance` and `createColorPaletteByContrast`.
- `palette.dfy`: the palette class, its queries and `from`.
- `typeahead_text.dfy`: `trim`, regular-expression escaping and the anchored case-insensitive match.
- `listbox.dfy`: the listbox.

The model's resampling loop takes a step contrast above 1, and for that case it is proved to terminate. For a step contrast in (0, 1) the loop as written does not terminate, and at exactly 1 it stalls whenever double rounding gives `(L + 0.05) - 0.05 == L` (see "## Findings"). At exactly 0 the source divides by zero: `lum` becomes Infinity, the first entry is picked again, and the loop stalls as well. Below 0 the source's loop does end, after one pass, with the first entry and an entry of luminance 0. `Palette.From` refuses every step contrast of at most 1, including the negative ones on purpose: a negative value is not a contrast step, and the model's `steppedLum` is defined only for positive step contrasts. The measure is `ContrastResampler.Potential`: each pass lowers the running target by at least `0.05 * (1 - 1/stepContrast)`. The loop is proved against the ghost function `Resampled`, which is defined by recursion on that measure.

## Model

| member | source | states |
|---|---|---|
| Sequences.IndexOf | packages/web-components/fast-components/src/color/palette.ts:178 | `indexOf` returns the first index holding the value, or -1 exactly when the value does not occur |
| SaturationRamp.Ramp | packages/web-components/fast-components/src/color/palette.ts:233-237 | lightness in [0, 100] maps into [0, 1]; up to 50 it is `l / 50`, above 50 it is `(l - 50) / 50` |
| SaturationRamp.RampFixedPoints | packages/web-components/fast-components/src/color/palette.ts:233-237 | `ramp(0) = 0`, `ramp(50) = 1` and `ramp(100) = 1` |
| SaturationRamp.BlendAt | packages/web-components/fast-components/src/color/palette.ts:258-272 | for every lightness in [-14, 114] the interpolation fraction lies in [0, 1]; each lightness band uses its own anchor pair (black to L0, L0 to L50, L50 to L100, L100 to white) |
| SaturationRamp.BlendEndpoints | packages/web-components/fast-components/src/color/palette.ts:255-272 | the last step (l = -14) is black at fraction 0 and the first (l = 114) is white at fraction 1; each band ends on the anchor where the next band starts |
| SaturationRamp.AnchorsOf | packages/web-components/fast-components/src/color/palette.ts:245-250 | the three anchors are the base colour's LAB chroma at lightness 0, 50 and 100, converted to RGB and clamped; no contract of its own |
| SaturationRamp.RampEntry | packages/web-components/fast-components/src/color/palette.ts:256-279 | one ramp entry: interpolate between the `BlendAt` anchors, bump saturation towards the L50 anchor when asked, round to four decimals; its properties are in `CreateSaturationPalette` and `DarkestRampEntryIsBlack` |
| SaturationRamp.SaturationBump | packages/web-components/fast-components/src/color/palette.ts:214-226 | a colour less saturated than the reference gets the reference's saturation at its own hue and lightness; any other colour is returned unchanged |
| SaturationRamp.SaturationBumpRaisesSaturation | packages/web-components/fast-components/src/color/palette.ts:214-226 | where HSL round-trips exactly, the result is at least as saturated as both the reference and the input, and keeps the input's hue and lightness |
| SaturationRamp.SaturationPalette | packages/web-components/fast-components/src/color/palette.ts:239-283 | the dense ramp has exactly 257 entries |
| SaturationRamp.CreateSaturationPalette | packages/web-components/fast-components/src/color/palette.ts:239-283 | the loop over `l = 114, 113.5, ..., -14` emits exactly `SaturationPalette`: entry i is taken at `l = 114 - i/2` |
| SaturationRamp.LightestRampEntryIsWhite | packages/web-components/fast-components/src/color/palette.ts:258-279 | under the primitive laws, the lightest ramp entry is pure white, with luminance 1, whether or not saturation is bumped |
| SaturationRamp.DarkestRampEntryIsBlack | packages/web-components/fast-components/src/color/palette.ts:258-279 | under the primitive laws, the darkest ramp entry is pure black, with luminance 0, whether or not saturation is bumped |
| PaletteOptions.MergeOptions | packages/web-components/fast-components/src/color/palette.ts:324-328 | without options the defaults are used; otherwise each given key overrides its default and each absent key keeps it |
| PaletteOptions.MergeOptionsLaws | packages/web-components/fast-components/src/color/palette.ts:34-37 | the defaults are `bumpSaturation = true` and `stepContrast = 1.06`; an empty options object equals none; a complete one is taken as is |
| ContrastResampler.ContrastRatio | packages/web-components/fast-components/src/color/palette.ts:297 | the WCAG contrast ratio of two luminances is at least 1 |
| ContrastResampler.SteppedLumInvertsContrastRatio | packages/web-components/fast-components/src/color/palette.ts:297 | for `stepContrast >= 1`, a luminance and its stepped luminance, both non-negative, have contrast ratio exactly `stepContrast` |
| ContrastResampler.SteppedLum | packages/web-components/fast-components/src/color/palette.ts:297 | `steppedLum`, for a positive step contrast; its contract is in `SteppedLumInvertsContrastRatio`, `SteppedLumDrops` and `AtMostOneDoesNotLower` |
| ContrastResampler.SteppedLumDrops | packages/web-components/fast-components/src/color/palette.ts:297 | with `stepContrast > 1`, one step lowers a non-negative luminance by at least `0.05 * (1 - 1/stepContrast)` |
| ContrastResampler.NextTarget | packages/web-components/fast-components/src/color/palette.ts:301-306 | the target is the stepped luminance, or 0 when the peek falls below 0; with `stepContrast > 1` it lies in [0, lum] and is below a positive lum |
| ContrastResampler.FindIndexAtOrBelow | packages/web-components/fast-components/src/color/palette.ts:204 | `find` locates the first entry with luminance at most `lum`, or -1 exactly when there is none |
| ContrastResampler.MaxRelativeLuminance | packages/web-components/fast-components/src/color/palette.ts:200-206 | the result is a palette entry: the first at or below `lum`, else the last; it is at or below `lum` whenever the last entry is |
| ContrastResampler.MaxRelativeLuminanceIsFirstAtOrBelow | packages/web-components/fast-components/src/color/palette.ts:204 | for any entry j at or below `lum`, the pick is at or below `lum` and lies at index j or earlier |
| ContrastResampler.MaxRelativeLuminanceFallsBackOnLast | packages/web-components/fast-components/src/color/palette.ts:205 | when no entry qualifies, the last entry is returned |
| ContrastResampler.ContrastStep | packages/web-components/fast-components/src/color/palette.ts:300-313 | one loop iteration appends a ramp entry |
| ContrastResampler.StepProgress | packages/web-components/fast-components/src/color/palette.ts:299-314 | on a ramp ending at luminance 0 with `stepContrast > 1`, an iteration appends an entry no lighter than its target and keeps `lum` in [0, 1]; a positive `lum` drops by at least the minimum drop, so the measure decreases |
| ContrastResampler.WalkUnfolds | packages/web-components/fast-components/src/color/palette.ts:300-314 | the walk is the entry appended by one iteration followed by the walk from the new `lum`, or by nothing once `lum` reaches 0 |
| ContrastResampler.Walk | packages/web-components/fast-components/src/color/palette.ts:299-314 | the entries the loop appends from a running target on, one `ContrastStep` per pass until `lum` reaches 0; a ghost specification function, whose properties are in `WalkUnfolds`, `WalkDescends`, `WalkKeepsStepContrast` and `WalkLengthBound` |
| ContrastResampler.Resampled | packages/web-components/fast-components/src/color/palette.ts:294-316 | the output of the resampler: the ramp's first entry, then the walk from `lum = 1`; it is the specification of `ResampleByContrast`, and its shape is proved in `ResampledShape` |
| ContrastResampler.WalkFromRamp | packages/web-components/fast-components/src/color/palette.ts:308-313 | every appended entry is a ramp entry, and at least one is appended |
| ContrastResampler.WalkDescends | packages/web-components/fast-components/src/color/palette.ts:299-314 | the appended entries get strictly darker, the first is at or below its stepped target, and the last has luminance 0: the loop stops with `lum == 0` |
| ContrastResampler.WalkKeepsStepContrast | packages/web-components/fast-components/src/color/palette.ts:297-313 | neighbouring appended entries, except possibly the final pair, are at least `stepContrast` apart |
| ContrastResampler.SecondPickIsStepApart | packages/web-components/fast-components/src/color/palette.ts:301-310 | when the walk continues past its first pick, that pick is at or below the unsnapped stepped target |
| ContrastResampler.ContrastOfStep | packages/web-components/fast-components/src/color/palette.ts:297 | any luminance at or below the stepped target has contrast at least `stepContrast` against the start |
| ContrastResampler.WalkLengthBound | packages/web-components/fast-components/src/color/palette.ts:299-314 | the number of iterations is bounded by the termination measure plus one |
| ContrastResampler.ResampledShape | packages/web-components/fast-components/src/color/palette.ts:294-316 | the output starts with the ramp's first entry, has at least 2 entries, all ramp entries, has non-increasing luminance ending at 0, and every neighbouring pair except the final one is at least one step contrast apart |
| ContrastResampler.CreateColorPaletteByContrast | packages/web-components/fast-components/src/color/palette.ts:285-317 | the dense ramp is walkable and the result is `Resampled` of it |
| ContrastResampler.SaturationPaletteIsWalkable | packages/web-components/fast-components/src/color/palette.ts:239-283 | under the primitive laws, the dense ramp is non-empty, its luminances lie in [0, 1], it starts at luminance 1 and it ends at luminance 0 |
| ContrastResampler.ResampleByContrast | packages/web-components/fast-components/src/color/palette.ts:294-316 | the do-while over `lum` terminates for `stepContrast > 1` and emits exactly `Resampled` |
| ContrastResampler.StepAdvances | packages/web-components/fast-components/src/color/palette.ts:300-314 | each iteration lowers the termination measure and moves exactly one entry from the pending walk to the output |
| ContrastResampler.ResampleStep | packages/web-components/fast-components/src/color/palette.ts:301-311 | the body (step, peek, snap to 0, pick, re-anchor) computes `ContrastStep` |
| ContrastResampler.StepContrastAtMostOneStalls | packages/web-components/fast-components/src/color/palette.ts:297-314 | with `0 < stepContrast <= 1` and a first entry of positive luminance, from any `lum` at or above that luminance, an iteration re-picks the first entry and re-anchors on it, so the state repeats |
| ContrastResampler.AtMostOneDoesNotLower | packages/web-components/fast-components/src/color/palette.ts:297 | with `0 < stepContrast <= 1`, stepping never lowers a positive luminance |
| Palette.SwatchRGB.constructor | packages/web-components/fast-components/src/color/palette.ts:336 | a swatch carries the given colour and luminance |
| Palette.Reversed | packages/web-components/fast-components/src/color/palette.ts:131 | the reversal has the same length and holds `s[|s| - 1 - k]` at k |
| Palette.Clamp | packages/web-components/fast-components/src/color/palette.ts:171 | the result lies in [min, max]; it is the input when the input is in range, else the nearer bound |
| Palette.FoldClosest | packages/web-components/fast-components/src/color/palette.ts:184-189 | the `reduce` with strict `<` ends on the first index at minimal distance |
| Palette.ClosestBy | packages/web-components/fast-components/src/color/palette.ts:184-189 | an in-range index at minimal luminance distance, strictly closer than every earlier index |
| Palette.PaletteRGB.constructor | packages/web-components/fast-components/src/color/palette.ts:127-133 | keeps source and swatches; `lastIndex == |swatches| - 1`; the reversed view has the same length and holds `swatches[lastIndex - k]` at k |
| Palette.PaletteRGB.Get | packages/web-components/fast-components/src/color/palette.ts:170-172 | an in-range index returns `swatches[index]`, a negative one the first swatch, a too-large one the last; the result is always a palette swatch |
| Palette.PaletteRGB.ClosestIndexOf | packages/web-components/fast-components/src/color/palette.ts:177-192 | always an in-range index; for a palette swatch, its own first index; otherwise the first index at minimal luminance distance (ties go to the earliest) |
| Palette.PaletteRGB.SearchRangeFor | packages/web-components/fast-components/src/color/palette.ts:144-162 | the end index is `lastIndex`; direction -1 searches the reversed view from `lastIndex - init`, else the swatches from `init`; an in-range init gives an in-range start on the same swatch |
| Palette.PaletteRGB.ColorContrast | packages/web-components/fast-components/src/color/palette.ts:138-165 | the result is what the search returns on the view, start and end index that `SearchRangeFor` gives, with the condition "contrast with the reference at least the target"; whenever that is an element of the view, it is a palette swatch |
| Palette.ClosestIsItsOwnFirstIndex | packages/web-components/fast-components/src/color/palette.ts:184-191 | the second `indexOf` recovers exactly the index the reduce picked |
| Palette.ClosestIndexOfGet | packages/web-components/fast-components/src/color/palette.ts:170-192 | for distinct swatches, `closestIndexOf(get(k)) == k` for each in-range k |
| Palette.From | packages/web-components/fast-components/src/color/palette.ts:324-339 | refuses exactly when the merged step contrast is at most 1; otherwise a fresh palette of fresh, distinct swatches wrapping `Resampled` of the ramp, with at least 2 swatches, starting at the ramp's first entry, with non-increasing luminance ending at 0, and with every neighbouring pair except the final one at least the step contrast apart |
| Palette.SwatchesKeepOrder | packages/web-components/fast-components/src/color/palette.ts:330-338 | swatches wrapping the resampled colours start at the ramp's first entry, descend in luminance to 0, and are a step contrast apart except possibly the final pair |
| Palette.SwatchesFor | packages/web-components/fast-components/src/color/palette.ts:336 | `map` gives one fresh, distinct swatch per colour, carrying that colour and its luminance |
| TypeaheadText.TrimStartLaws | packages/web-components/fast-foundation/src/listbox/listbox.ts:161 | removes exactly the leading whitespace run |
| TypeaheadText.TrimStart | packages/web-components/fast-foundation/src/listbox/listbox.ts:161 | the leading half of `trim`; its contract is `TrimStartLaws` |
| TypeaheadText.TrimEnd | packages/web-components/fast-foundation/src/listbox/listbox.ts:161 | the trailing half of `trim`; its contract is `TrimEndLaws` |
| TypeaheadText.Trim | packages/web-components/fast-foundation/src/listbox/listbox.ts:161 | `trim`; its contract is `TrimLaws` and `TrimIdempotent` |
| TypeaheadText.TrimEndLaws | packages/web-components/fast-foundation/src/listbox/listbox.ts:161 | removes exactly the trailing whitespace run |
| TypeaheadText.TrimLaws | packages/web-components/fast-foundation/src/listbox/listbox.ts:161 | `trim` leaves no whitespace at either end, keeps a string without it, and empties an all-whitespace string |
| TypeaheadText.TrimIdempotent | packages/web-components/fast-foundation/src/listbox/listbox.ts:161 | trimming twice equals trimming once |
| TypeaheadText.EscapeRegExp | packages/web-components/fast-foundation/src/listbox/listbox.ts:157 | escaping at most doubles the buffer, and leaves a buffer without syntax characters unchanged |
| TypeaheadText.Unescape | packages/web-components/fast-foundation/src/listbox/listbox.ts:157-158 | a literal pattern stands for at most as many characters as it has |
| TypeaheadText.EscapeRegExpIsLiteral | packages/web-components/fast-foundation/src/listbox/listbox.ts:157 | the escaped buffer is a literal pattern standing for exactly the typed characters |
| TypeaheadText.UnescapeThenEscape | packages/web-components/fast-foundation/src/listbox/listbox.ts:157 | escaping what a literal pattern stands for gives the pattern back |
| TypeaheadText.MatchesPrefixIffStartsWith | packages/web-components/fast-foundation/src/listbox/listbox.ts:158-161 | `^pattern` with flag `i` matches exactly the texts that start with the pattern's characters, ignoring case |
| TypeaheadText.Canonicalize | packages/web-components/fast-foundation/src/listbox/listbox.ts:158 | the case folding of the `i` flag, for ASCII letters |
| TypeaheadText.StartsWithIgnoringCase | packages/web-components/fast-foundation/src/listbox/listbox.ts:158-161 | the intended meaning of the test: the text starts with the prefix after case folding; `MatchesPrefixIffStartsWith` ties the regex test to it |
| TypeaheadText.MatchesPrefix | packages/web-components/fast-foundation/src/listbox/listbox.ts:158-161 | the `^pattern` match with flag `i` for a literal pattern, atom by atom; `MatchesPrefixIffStartsWith` states what it decides |
| TypeaheadText.EscapedBufferMatches | packages/web-components/fast-foundation/src/listbox/listbox.ts:157-161 | the regular expression built from the escaped buffer matches a text exactly when the text starts with the buffer, ignoring case |
| Listbox.ListboxOption.constructor | packages/web-components/fast-foundation/src/listbox/listbox.ts:228-232 | an option starts unselected with `checked` undefined |
| Listbox.OptionsOf | packages/web-components/fast-foundation/src/listbox/listbox.ts:194-199 | every listbox option in the result is one of the slotted elements, and every slotted listbox option is in the result |
| Listbox.OptionsOfKeepsOrder | packages/web-components/fast-foundation/src/listbox/listbox.ts:194-199 | the `reduce` is an order-preserving filter: it distributes over concatenation, keeps a listbox option and drops any other element, so options keep slot order and multiplicity |
| Listbox.SameNodes | packages/web-components/fast-foundation/src/listbox/listbox.ts:441-445 | every kept option is the selected one and is in the options; a selected option in the options is kept |
| Listbox.SelectedOption | packages/web-components/fast-foundation/src/listbox/listbox.ts:441 | `options[selectedIndex] \|\| null`: the option at an in-range index, else none |
| Listbox.CheckedState | packages/web-components/fast-foundation/src/listbox/listbox.ts:232-236 | the `checked` value an option ends with: in multiple mode true for the first selected option and false for the rest, undefined otherwise; used by `SelectionSynced` and `SelectedOptionsChanged` |
| Listbox.FirstWithSelectedAttribute | packages/web-components/fast-foundation/src/listbox/listbox.ts:420-422 | `findIndex` gives the first option with a `selected` attribute, or -1 exactly when none has one |
| Listbox.DefaultSelectedIndexIsFirstMarked | packages/web-components/fast-foundation/src/listbox/listbox.ts:418-431 | the default index is in range for non-empty options, is the first marked option, and is 0 when none is marked |
| Listbox.DefaultSelectedIndex | packages/web-components/fast-foundation/src/listbox/listbox.ts:418-431 | the index `setDefaultSelectedOption` assigns; its contract is `DefaultSelectedIndexIsFirstMarked` |
| Listbox.NavigationStaysInRange | packages/web-components/fast-foundation/src/listbox/listbox.ts:394-413 | next never passes the last option and previous never goes below 0; each moves at most one step; an unblocked step forward then back (or back then forward) returns to the start |
| Listbox.NextIndex | packages/web-components/fast-foundation/src/listbox/listbox.ts:394-402 | the index `selectNextOption` moves to; its contract is `NavigationStaysInRange` |
| Listbox.PreviousIndex | packages/web-components/fast-foundation/src/listbox/listbox.ts:409-413 | the index `selectPreviousOption` moves to; its contract is `NavigationStaysInRange` |
| Listbox.TypedBuffer | packages/web-components/fast-foundation/src/listbox/listbox.ts:64-66 | the buffer `handleTypeAhead` assigns: the key appended to the old buffer, or to "" once expired; used by `HandleTypeAhead` |
| Listbox.FilterMatching | packages/web-components/fast-foundation/src/listbox/listbox.ts:160-162 | the filter keeps at most all the options |
| Listbox.FilterMatchingKeepsOrder | packages/web-components/fast-foundation/src/listbox/listbox.ts:160-162 | `filter` distributes over concatenation, so kept options stay in order |
| Listbox.FilterMatchingSingle | packages/web-components/fast-foundation/src/listbox/listbox.ts:160-162 | a single option is kept exactly when the pattern matches its trimmed text |
| Listbox.FilterMatchingKeepsMatches | packages/web-components/fast-foundation/src/listbox/listbox.ts:160-162 | an option is in the result exactly when it is one of the options and the pattern matches its trimmed text |
| Listbox.FirstMatchIndex | packages/web-components/fast-foundation/src/listbox/listbox.ts:157-169 | the first option whose trimmed text starts with the buffer, ignoring case; -1 exactly when none does |
| Listbox.FilterMatchingStartsAtFirstMatch | packages/web-components/fast-foundation/src/listbox/listbox.ts:157-165 | the filter is non-empty exactly when some option matches, and its head is the first matching option |
| Listbox.TypeaheadFindsFirstMatch | packages/web-components/fast-foundation/src/listbox/listbox.ts:160-166 | filtering and then `indexOf` of the head find the first matching index, even with repeated options |
| Listbox.DispatchLaws | packages/web-components/fast-foundation/src/listbox/listbox.ts:295-353 | only Home, ArrowDown, ArrowUp and End return without `true`, and only navigation prevents the default; End always selects the last option; a key goes to the typeahead exactly when it is one character long and is not a space while the typeahead has expired |
| Listbox.Dispatch | packages/web-components/fast-foundation/src/listbox/listbox.ts:295-353 | the `switch` of `keydownHandler` as a value: the action taken and the return and `preventDefault` results per key; its laws are `DispatchLaws`, and `KeydownHandler` is proved against it |
| Listbox.Listbox.constructor | packages/web-components/fast-foundation/src/listbox/listbox.ts:129-185 | no options, index -1, empty buffer, expired typeahead, selection in sync |
| Listbox.Listbox.MarkSelectedOptions | packages/web-components/fast-foundation/src/listbox/listbox.ts:228-233 | each option is marked selected exactly when it is among the selected options; `checked` is false in multiple mode and undefined otherwise |
| Listbox.Listbox.Length | packages/web-components/fast-foundation/src/listbox/listbox.ts:74-76 | `length`: the number of options |
| Listbox.Listbox.FirstSelectedOption | packages/web-components/fast-foundation/src/listbox/listbox.ts:38-40 | `firstSelectedOption`: the first selected option, if any |
| Listbox.Listbox.SelectedOptionsChanged | packages/web-components/fast-foundation/src/listbox/listbox.ts:226-239 | as above, and in multiple mode the first selected option alone is checked; ids are untouched |
| Listbox.Listbox.SetSelectedOptions | packages/web-components/fast-foundation/src/listbox/listbox.ts:439-451 | the selected options are the occurrences of `options[selectedIndex]` (none when out of range); the active descendant is the first one's id or ""; flags follow; the index and configuration are kept |
| Listbox.Listbox.SetSelectedIndex | packages/web-components/fast-foundation/src/listbox/listbox.ts:129-133 | a new value is stored and re-synchronises the selection; assigning the same value changes nothing |
| Listbox.Listbox.SelectFirstOption | packages/web-components/fast-foundation/src/listbox/listbox.ts:372-376 | index 0 unless disabled, when the index is kept; the selection stays in sync; when the index does not change, neither the listbox nor any option changes |
| Listbox.Listbox.SelectLastOption | packages/web-components/fast-foundation/src/listbox/listbox.ts:383-387 | index `|options| - 1` unless disabled, when the index is kept; when the index does not change, neither the listbox nor any option changes |
| Listbox.Listbox.SelectNextOption | packages/web-components/fast-foundation/src/listbox/listbox.ts:394-402 | one step forward unless disabled or already at the last option; when the index does not change, neither the listbox nor any option changes |
| Listbox.Listbox.SelectPreviousOption | packages/web-components/fast-foundation/src/listbox/listbox.ts:409-413 | one step back unless disabled or already at index 0 or below; when the index does not change, neither the listbox nor any option changes |
| Listbox.Listbox.SetDefaultSelectedOption | packages/web-components/fast-foundation/src/listbox/listbox.ts:418-431 | the index becomes the first option with a `selected` attribute, else 0; when the index does not change, neither the listbox nor any option changes |
| Listbox.Listbox.TypeaheadBufferChanged | packages/web-components/fast-foundation/src/listbox/listbox.ts:155-173 | selects the first option whose trimmed text starts with the buffer, ignoring case, keeps the index when none matches, and clears the expiry flag; a kept index leaves the selection mirror, the active descendant and the option flags alone |
| Listbox.Listbox.SelectTypeaheadMatch | packages/web-components/fast-foundation/src/listbox/listbox.ts:157-169 | the filter-then-`indexOf` search selects `FirstMatchIndex`, or keeps the index; a kept index changes nothing |
| Listbox.Listbox.SetTypeaheadBuffer | packages/web-components/fast-foundation/src/listbox/listbox.ts:153-173 | a new buffer is stored and runs the search; the same buffer changes nothing; a kept index leaves the selection mirror, the active descendant and the option flags alone |
| Listbox.Listbox.HandleTypeAhead | packages/web-components/fast-foundation/src/listbox/listbox.ts:50-67 | the timer is (re)started; a key longer than one character leaves buffer and index alone; otherwise the buffer becomes `(expired ? "" : buffer) + key` and a changed buffer selects its first match; a kept index leaves the selection mirror, the active descendant and the option flags alone |
| Listbox.Listbox.TypeaheadTimeoutElapsed | packages/web-components/fast-foundation/src/listbox/listbox.ts:55-58 | the timeout marks the typeahead expired and changes no selection |
| Listbox.Listbox.MultipleChanged | packages/web-components/fast-foundation/src/listbox/listbox.ts:87-97 | `ariaMultiselectable` becomes "true" or undefined to match `multiple`, and the selection is re-synchronised; the options, their ids, the index and the typeahead state are kept |
| Listbox.Listbox.SetMultiple | packages/web-components/fast-foundation/src/listbox/listbox.ts:85-97 | a new value is stored and synchronises everything; the same value changes nothing; option ids are kept either way |
| Listbox.Listbox.SetDisabled | packages/web-components/fast-foundation/src/listbox/listbox.ts:30-31 | only the flag changes |
| Listbox.Listbox.SlottedOptionsChanged | packages/web-components/fast-foundation/src/listbox/listbox.ts:192-208 | the options become the slotted listbox options, all with ids (existing ids kept); the default option is selected and the selection is in sync |
| Listbox.Listbox.AssignMissingIds | packages/web-components/fast-foundation/src/listbox/listbox.ts:201-203 | every option ends up with a non-empty id, existing ids unchanged |
| Listbox.Listbox.ClickHandler | packages/web-components/fast-foundation/src/listbox/listbox.ts:246-255 | returns true exactly for a click inside an enabled option, and then selects that option's first index (-1 if it is not one of the options); when the index does not change, nothing changes |
| Listbox.Listbox.FocusinHandler | packages/web-components/fast-foundation/src/listbox/listbox.ts:272-279 | re-synchronises when focus lands on the listbox and is not skipped; always clears the skip flag |
| Listbox.Listbox.MousedownHandler | packages/web-components/fast-foundation/src/listbox/listbox.ts:362-365 | returns true and skips the next focus exactly when focus is outside the listbox |
| Listbox.Listbox.KeydownHandler | packages/web-components/fast-foundation/src/listbox/listbox.ts:286-354 | a disabled listbox returns true and changes nothing; otherwise the skip flag is cleared and the key's effect and result are those `Dispatch` gives; a kept index leaves the selection mirror, the active descendant and the option flags alone |
| Listbox.Listbox.HandleEnabledKey | packages/web-components/fast-foundation/src/listbox/listbox.ts:295-353 | the `switch`, for an enabled listbox, performs `Dispatch`'s action and returns its result; a kept index leaves the selection mirror, the active descendant and the option flags alone |
| Listbox.Listbox.HandleNavigationKey | packages/web-components/fast-foundation/src/listbox/listbox.ts:297-328 | Home/ArrowDown/ArrowUp without shift and End navigate and prevent the default; shifted Home/ArrowDown/ArrowUp do nothing; a kept index leaves the selection mirror, the active descendant and the option flags alone |

## Left out

- The colour-space primitives (`rgbToLAB`, `labToRGB`, `rgbToHSL`, `hslToRGB`, `interpolateRGB`, `rgbToRelativeLuminance`, `.clamp()`, `roundToPrecision(4)`) are floating-point library code. They are uninterpreted parameters, limited only by `Color.Laws`. Concrete swatch values and palette lengths for a given colour are therefore not modelled.
- Real arithmetic is exact here, with no floating-point rounding. The 0.5 lightness steps of the ramp loop are exact in binary as well.
- `binarySearch`, `contrast` and `directionByIsDark` come from files that are not part of this model. They are parameters of `ColorContrast`.
- `swatch.ts` and `SwatchRGB.from` are not part of this model. A swatch is a colour with its luminance.
- The static `PaletteRGB.create` is not modelled. `from` takes an RGB swatch; a reference that is some other kind of swatch is not modelled.
- Palette.PaletteRGB.Get: only integer indices are modelled. The palette must be non-empty, which every palette built by `From` is.
- Palette.PaletteRGB.ClosestIndexOf: requires a non-empty palette, as `reduce` with no initial value throws on an empty array.
- Palette.PaletteRGB.ColorContrast: requires a non-empty palette, which its `closestIndexOf` default needs.
- PaletteOptions.MergeOptions: an options key present with the value `undefined` is not distinguished from an absent key.
- TypeaheadText.Canonicalize: case is folded for ASCII letters only, so a buffer "é" does not select "École" as the source's `i` flag does.
- TypeaheadText.StartsWithIgnoringCase: inherits the ASCII-only case folding of `Canonicalize`.
- TypeaheadText.MatchesPrefix: inherits the ASCII-only case folding of `Canonicalize`.
- TypeaheadText.EscapedBufferMatches: inherits the ASCII-only case folding of `Canonicalize`.
- Listbox.FilterMatching: inherits the ASCII-only case folding of `Canonicalize`.
- Listbox.FirstMatchIndex: inherits the ASCII-only case folding of `Canonicalize`.
- Listbox.Listbox.TypeaheadBufferChanged: inherits the ASCII-only case folding of `Canonicalize`.
- Listbox.Listbox.HandleTypeAhead: key lengths count Unicode scalar values, not UTF-16 code units.
- Listbox.Dispatch: the `key.length === 1` test counts Unicode scalar values, not UTF-16 code units.
- Listbox.DispatchLaws: the one-character typeahead condition counts Unicode scalar values, not UTF-16 code units.
- Listbox.Listbox.HandleEnabledKey: the `key.length === 1` test counts Unicode scalar values, not UTF-16 code units.
- Listbox.Listbox.KeydownHandler: inherits the Unicode-scalar key length of `HandleEnabledKey`.
- The regular-expression engine is modelled only for the literal patterns the escaped buffer produces.
- DOM work is not modelled: focus, `focusAndScrollOptionIntoView`, `scrollIntoView`, `requestAnimationFrame`, `closest()` and `contains(document.activeElement)`. The handlers instead take the captured option and whether focus is inside as parameters.
- `window.setTimeout` and `clearTimeout` are replaced by a pending-timer flag and the explicit `TypeaheadTimeoutElapsed` event. So `TYPE_AHEAD_TIMEOUT_MS` does not appear.
- `uniqueId("option-")` is the parameter `idSuffix`, which gives the suffix of the n-th id generated in one call.
- `$fastController.isConnected` is taken to be true.
- `Observable.track` and `notify`, the `role` attribute, the static `slottedOptionFilter`, the mixins and the ARIA declarations are not modelled.
- The public `selectedOptions` setter is not modelled. `selectedOptions` is only assigned by `setSelectedOptions`.
- An option's `selected` attribute is a constant of the option, independent of its `selected` property.
- `listbox-option.ts` is not part of this model. An option is its text, id, disabled flag, `selected` attribute, and `selected` and `checked` state.
- Listbox.Listbox.constructor: `disabled` and `multiple` start as false, where the element's attributes start undefined. So the first assignment of `multiple = false`, which runs `multipleChanged` in the source, changes nothing here. Once the state is `Synced`, that extra callback has no observable effect.
- The dialog, styles, templates, stories and picker files are not modelled.

## Findings

| source | as written | input that shows it | evidently intended | confidence | as-written member | corrected member |
|---|---|---|---|---|---|---|
| packages/web-components/fast-components/src/color/palette.ts:297-314 | `from` passes any merged `stepContrast` to the resampling do-while. With `0 < stepContrast <= 1`, `steppedLum` never lowers a positive `lum`, so every iteration picks the first ramp entry, re-anchors `lum` on its positive luminance, and the loop never exits. | `PaletteRGBImpl.from(source, { stepContrast: 0.9 })`: `lum` stays at the first entry's luminance and `targetPalette` grows without bound. At exactly `stepContrast = 1` the same stall needs `(L + 0.05) - 0.05` to round back to `L` in double arithmetic; the model's real arithmetic is exact. | a step contrast above 1 is required, and a smaller one is refused rather than looping | not executed | ContrastResampler.StepContrastAtMostOneStalls | Palette.From |
