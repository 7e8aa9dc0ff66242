/**
 * `PaletteRGBImpl`: an immutable palette of swatches with a cached reversed
 * view, its three queries (`get`, `closestIndexOf`, `colorContrast`) and the
 * `from` factory that builds one from a source swatch.
 */
module Palette {
  import opened Wrappers
  import opened Color
  import opened SaturationRamp
  import opened PaletteOptions
  import opened ContrastResampler
  import opened Sequences

  /**
   * A swatch: an RGB colour and its relative luminance. Swatches are objects,
   * compared by identity, as `indexOf` does.
   */
  class SwatchRGB {
    const color: Rgb
    const relativeLuminance: real

    constructor (color: Rgb, relativeLuminance: real)
      ensures this.color == color && this.relativeLuminance == relativeLuminance
    {
      this.color := color;
      this.relativeLuminance := relativeLuminance;
    }
  }

  /** `[...s].reverse()`. */
  function Reversed<T>(s: seq<T>): (r: seq<T>)
    ensures |r| == |s|
    ensures forall k :: 0 <= k < |s| ==> r[k] == s[|s| - 1 - k]
  {
    if |s| == 0 then [] else Reversed(s[1..]) + [s[0]]
  }

  /** `clamp(i, min, max)`: `i` limited to `[min, max]` when `min <= max`. */
  function Clamp(i: int, min: int, max: int): (r: int)
    requires min <= max
    ensures min <= r <= max
    ensures min <= i <= max ==> r == i
    ensures i < min ==> r == min
    ensures i > max ==> r == max
  {
    if i < min then min else if i > max then max else i
  }

  function Abs(x: real): real
  {
    if x < 0.0 then -x else x
  }

  /** How far a swatch's luminance lies from the reference luminance. */
  function Distance(s: SwatchRGB, target: real): real
  {
    Abs(s.relativeLuminance - target)
  }

  /** `acc` is the first index of `s[..i]` at minimal distance from `target`. */
  ghost predicate FirstClosestUpTo(s: seq<SwatchRGB>, target: real, acc: int, i: int)
    requires 0 <= acc < i <= |s|
  {
    && (forall j :: 0 <= j < i ==> Distance(s[acc], target) <= Distance(s[j], target))
    && (forall j :: 0 <= j < acc ==> Distance(s[acc], target) < Distance(s[j], target))
  }

  /**
   * The `reduce` of `closestIndexOf` from position `i` on, tracking the index
   * of its accumulator: an entry replaces the accumulator only when it is
   * strictly closer, so the first of several equally close entries is kept.
   */
  function FoldClosest(s: seq<SwatchRGB>, target: real, acc: int, i: int): (m: int)
    requires 0 <= acc < i <= |s| && FirstClosestUpTo(s, target, acc, i)
    ensures 0 <= m < |s| && FirstClosestUpTo(s, target, m, |s|)
    decreases |s| - i
  {
    if i == |s| then acc
    else if Distance(s[i], target) < Distance(s[acc], target) then FoldClosest(s, target, i, i + 1)
    else FoldClosest(s, target, acc, i + 1)
  }

  /** The first index of a non-empty `s` at minimal distance from `target`. */
  function ClosestBy(s: seq<SwatchRGB>, target: real): (m: int)
    requires |s| > 0
    ensures 0 <= m < |s|
    ensures forall j :: 0 <= j < |s| ==> Distance(s[m], target) <= Distance(s[j], target)
    ensures forall j :: 0 <= j < m ==> Distance(s[m], target) < Distance(s[j], target)
  {
    FoldClosest(s, target, 0, 1)
  }

  /** `1` and `-1`, the two values of `colorContrast`'s `direction`. */
  datatype Direction = Forward | Reverse

  /** The arguments `colorContrast` hands to `binarySearch`, apart from the condition. */
  datatype SearchRange = SearchRange(view: seq<SwatchRGB>, startSearchIndex: int, endSearchIndex: int)

  /** Why `from` refuses to build a palette. */
  datatype PaletteError = StepContrastNotAboveOne

  /** An immutable palette: the source swatch, its swatches, and the cached reversed view. */
  class PaletteRGB {
    const source: SwatchRGB
    const swatches: seq<SwatchRGB>
    const lastIndex: int
    const reversedSwatches: seq<SwatchRGB>

    /** What the constructor establishes about the cached members. */
    ghost predicate Valid()
    {
      && lastIndex == |swatches| - 1
      && |reversedSwatches| == |swatches|
      && forall k :: 0 <= k < |swatches| ==> reversedSwatches[k] == swatches[lastIndex - k]
    }

    constructor (source: SwatchRGB, swatches: seq<SwatchRGB>)
      ensures this.source == source && this.swatches == swatches
      ensures Valid()
    {
      this.source := source;
      this.swatches := swatches;
      this.reversedSwatches := Reversed(swatches);
      this.lastIndex := |swatches| - 1;
    }

    /**
     * `get`: the swatch at `index` when it is in range, otherwise the swatch
     * at the nearer end of the palette.
     */
    function Get(index: int): (s: SwatchRGB)
      requires Valid() && |swatches| > 0
      ensures 0 <= index <= lastIndex ==> s == swatches[index]
      ensures index < 0 ==> s == swatches[0]
      ensures index > lastIndex ==> s == swatches[lastIndex]
      ensures s in swatches
    {
      if 0 <= index < |swatches| then swatches[index] else swatches[Clamp(index, 0, lastIndex)]
    }

    /**
     * `closestIndexOf`: the swatch's own first index when it belongs to the
     * palette, otherwise the index of the first swatch at minimal luminance
     * distance from it.
     */
    function ClosestIndexOf(reference: SwatchRGB): (i: int)
      requires Valid() && |swatches| > 0
      ensures 0 <= i <= lastIndex
      ensures reference in swatches ==>
        swatches[i] == reference && forall j :: 0 <= j < i ==> swatches[j] != reference
      ensures reference !in swatches ==>
        && (forall j :: 0 <= j < |swatches| ==>
              Distance(swatches[i], reference.relativeLuminance) <= Distance(swatches[j], reference.relativeLuminance))
        && (forall j :: 0 <= j < i ==>
              Distance(swatches[i], reference.relativeLuminance) < Distance(swatches[j], reference.relativeLuminance))
    {
      var index := IndexOf(swatches, reference);
      if index != -1 then index
      else
        var closest := swatches[ClosestBy(swatches, reference.relativeLuminance)];
        ClosestIsItsOwnFirstIndex(swatches, reference.relativeLuminance);
        IndexOf(swatches, closest)
    }

    /**
     * The view, start index and end index `colorContrast` searches: the start
     * defaults to `closestIndexOf(reference)` and the direction to
     * `directionByIsDark(reference)`; direction `-1` searches the reversed
     * view from the mirrored start.
     */
    function SearchRangeFor(reference: SwatchRGB, initialSearchIndex: Option<int>, direction: Option<Direction>,
                            directionByIsDark: SwatchRGB -> Direction): (r: SearchRange)
      requires Valid() && |swatches| > 0
      ensures r.endSearchIndex == lastIndex
      ensures var init := if initialSearchIndex.Some? then initialSearchIndex.value else ClosestIndexOf(reference);
        var dir := if direction.Some? then direction.value else directionByIsDark(reference);
        && (dir == Reverse ==> r.view == reversedSwatches && r.startSearchIndex == lastIndex - init)
        && (dir == Forward ==> r.view == swatches && r.startSearchIndex == init)
        && |r.view| == |swatches|
        && (0 <= init <= lastIndex ==> 0 <= r.startSearchIndex <= lastIndex && r.view[r.startSearchIndex] == swatches[init])
    {
      var init := if initialSearchIndex.Some? then initialSearchIndex.value else ClosestIndexOf(reference);
      var dir := if direction.Some? then direction.value else directionByIsDark(reference);
      if dir == Reverse then SearchRange(reversedSwatches, lastIndex - init, lastIndex)
      else SearchRange(swatches, init, lastIndex)
    }

    /**
     * `colorContrast`: `binarySearch` over the selected view for a swatch
     * whose contrast with the reference reaches the target. The search
     * itself, the contrast measure and the dark/light classification are
     * parameters; whenever the search returns an element of the view it is
     * given, the result is one of the palette's swatches.
     */
    function ColorContrast(reference: SwatchRGB, contrastTarget: real, initialSearchIndex: Option<int>,
                           direction: Option<Direction>,
                           contrast: (SwatchRGB, SwatchRGB) -> real,
                           directionByIsDark: SwatchRGB -> Direction,
                           binarySearch: (seq<SwatchRGB>, SwatchRGB -> bool, int, int) -> SwatchRGB): (s: SwatchRGB)
      requires Valid() && |swatches| > 0
      ensures var range := SearchRangeFor(reference, initialSearchIndex, direction, directionByIsDark);
        var condition := (value: SwatchRGB) => contrast(reference, value) >= contrastTarget;
        binarySearch(range.view, condition, range.startSearchIndex, range.endSearchIndex) in range.view ==>
          s in swatches
      ensures var range := SearchRangeFor(reference, initialSearchIndex, direction, directionByIsDark);
        var condition := (value: SwatchRGB) => contrast(reference, value) >= contrastTarget;
        s == binarySearch(range.view, condition, range.startSearchIndex, range.endSearchIndex)
    {
      var range := SearchRangeFor(reference, initialSearchIndex, direction, directionByIsDark);
      var condition := (value: SwatchRGB) => contrast(reference, value) >= contrastTarget;
      var s := binarySearch(range.view, condition, range.startSearchIndex, range.endSearchIndex);
      assert s in range.view ==> s in swatches by {
        if s in range.view && range.view == reversedSwatches {
          var k :| 0 <= k < |reversedSwatches| && reversedSwatches[k] == s;
          assert swatches[lastIndex - k] == s;
        }
      }
      s
    }
  }

  /** The swatch `ClosestBy` picks has no earlier occurrence, so `indexOf` finds it at the same index. */
  lemma ClosestIsItsOwnFirstIndex(s: seq<SwatchRGB>, target: real)
    requires |s| > 0
    ensures IndexOf(s, s[ClosestBy(s, target)]) == ClosestBy(s, target)
  {
  }

  /**
   * For a palette of distinct swatches, `closestIndexOf` undoes `get` on
   * every in-range index.
   */
  lemma ClosestIndexOfGet(palette: PaletteRGB, k: int)
    requires palette.Valid() && |palette.swatches| > 0 && 0 <= k <= palette.lastIndex
    requires forall a, b :: 0 <= a < b < |palette.swatches| ==> palette.swatches[a] != palette.swatches[b]
    ensures palette.ClosestIndexOf(palette.Get(k)) == k
  {
  }

  /**
   * `from`: merge the options over the defaults, build the colours with
   * `createColorPaletteByContrast`, wrap each in a new swatch and cache the
   * reversed view. A merged step contrast of at most 1 is refused, because
   * the resampling loop does not terminate for it.
   */
  method From(p: ColorPrimitives, source: SwatchRGB, options: Option<PartialPaletteOptions>)
    returns (r: Result<PaletteRGB, PaletteError>)
    requires Laws(p)
    ensures r.Err? <==> MergeOptions(options).stepContrast <= 1.0
    ensures r.Ok? ==>
      var opts := MergeOptions(options);
      var ramp := SaturationPalette(p, source.color, opts.bumpSaturation);
      var colors := Resampled(ramp, p.relativeLuminance, opts.stepContrast);
      var palette := r.value;
      && fresh(palette)
      && palette.Valid()
      && palette.source == source
      && |palette.swatches| == |colors| >= 2
      && (forall i :: 0 <= i < |colors| ==>
            fresh(palette.swatches[i])
            && palette.swatches[i].color == colors[i]
            && palette.swatches[i].relativeLuminance == p.relativeLuminance(colors[i]))
      && (forall a, b :: 0 <= a < b < |colors| ==> palette.swatches[a] != palette.swatches[b])
      && palette.swatches[0].color == ramp[0]
      && (forall i :: 0 <= i < |colors| - 1 ==>
            palette.swatches[i].relativeLuminance >= palette.swatches[i + 1].relativeLuminance)
      && palette.swatches[|colors| - 1].relativeLuminance == 0.0
      && (forall i :: 0 <= i < |colors| ==> 0.0 <= palette.swatches[i].relativeLuminance)
      && (forall i :: 0 <= i < |colors| - 2 ==>
            ContrastRatio(palette.swatches[i].relativeLuminance, palette.swatches[i + 1].relativeLuminance) >= opts.stepContrast)
  {
    var opts := MergeOptions(options);
    if opts.stepContrast <= 1.0 {
      return Err(StepContrastNotAboveOne);
    }
    var colors := CreateColorPaletteByContrast(p, source.color, opts);
    ghost var ramp := SaturationPalette(p, source.color, opts.bumpSaturation);
    var swatches := SwatchesFor(colors, p.relativeLuminance);
    SwatchesKeepOrder(swatches, ramp, p.relativeLuminance, opts.stepContrast);
    var palette := new PaletteRGB(source, swatches);
    return Ok(palette);
  }

  /**
   * Swatches wrapping the resampled colours of a walkable ramp start at its
   * first entry, descend in luminance to 0, and are a step contrast apart
   * except possibly the final pair.
   */
  lemma SwatchesKeepOrder(swatches: seq<SwatchRGB>, ramp: seq<Rgb>, luminance: Rgb -> real, stepContrast: real)
    requires WalkableRamp(ramp, luminance) && stepContrast > 1.0
    requires forall c :: 0.0 <= luminance(c)
    requires |swatches| == |Resampled(ramp, luminance, stepContrast)|
    requires forall i :: 0 <= i < |swatches| ==>
      swatches[i].color == Resampled(ramp, luminance, stepContrast)[i]
      && swatches[i].relativeLuminance == luminance(Resampled(ramp, luminance, stepContrast)[i])
    ensures |swatches| >= 2 && swatches[0].color == ramp[0]
    ensures forall i :: 0 <= i < |swatches| - 1 ==> swatches[i].relativeLuminance >= swatches[i + 1].relativeLuminance
    ensures swatches[|swatches| - 1].relativeLuminance == 0.0
    ensures forall i :: 0 <= i < |swatches| ==> 0.0 <= swatches[i].relativeLuminance
    ensures forall i :: 0 <= i < |swatches| - 2 ==>
      ContrastRatio(swatches[i].relativeLuminance, swatches[i + 1].relativeLuminance) >= stepContrast
  {
    var colors := Resampled(ramp, luminance, stepContrast);
    ResampledShape(ramp, luminance, stepContrast);
    forall i | 0 <= i < |swatches| - 2
      ensures ContrastRatio(swatches[i].relativeLuminance, swatches[i + 1].relativeLuminance) >= stepContrast
    {
      assert StepApart(luminance, colors[i], colors[i + 1], stepContrast);
    }
  }

  /** `.map(x => SwatchRGB.from(x))`: one new swatch per colour, carrying its luminance. */
  method SwatchesFor(colors: seq<Rgb>, luminance: Rgb -> real) returns (swatches: seq<SwatchRGB>)
    ensures |swatches| == |colors|
    ensures forall i :: 0 <= i < |colors| ==>
      fresh(swatches[i])
      && swatches[i].color == colors[i]
      && swatches[i].relativeLuminance == luminance(colors[i])
    ensures forall a, b :: 0 <= a < b < |colors| ==> swatches[a] != swatches[b]
  {
    swatches := [];
    for i := 0 to |colors|
      invariant |swatches| == i
      invariant forall j :: 0 <= j < i ==>
        fresh(swatches[j])
        && swatches[j].color == colors[j]
        && swatches[j].relativeLuminance == luminance(colors[j])
      invariant forall a, b :: 0 <= a < b < i ==> swatches[a] != swatches[b]
    {
      var swatch := new SwatchRGB(colors[i], luminance(colors[i]));
      swatches := swatches + [swatch];
    }
  }
}
