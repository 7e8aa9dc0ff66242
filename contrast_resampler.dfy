/**
 * The contrast resampler of the palette engine (`createColorPaletteByContrast`
 * and `maxRelativeLuminance`): a walk down the dense ramp that emits one entry
 * per contrast step.
 *
 * The contrast ratio of two relative luminances is the one defined in the
 * glossary of WCAG 2.1: (L1 + 0.05) / (L2 + 0.05), L1 the lighter.
 */
module ContrastResampler {
  import opened Color
  import opened SaturationRamp
  import opened PaletteOptions

  /** The flare term of the WCAG contrast-ratio formula. */
  const Flare: real := 0.05

  /** WCAG 2.1 contrast ratio of two relative luminances. */
  function ContrastRatio(l1: real, l2: real): (r: real)
    requires 0.0 <= l1 && 0.0 <= l2
    ensures r >= 1.0
  {
    var hi := if l1 >= l2 then l1 else l2;
    var lo := if l1 >= l2 then l2 else l1;
    DivAtLeastOne(hi + Flare, lo + Flare);
    (hi + Flare) / (lo + Flare)
  }

  lemma DivAtLeastOne(a: real, b: real)
    requires 0.0 < b <= a
    ensures a / b >= 1.0
  {
    var q := a / b;
    assert q * b == a;
  }

  /**
   * `steppedLum`: the luminance one contrast step darker, obtained by solving
   * the contrast-ratio formula for the darker luminance.
   */
  function SteppedLum(lum: real, stepContrast: real): real
    requires stepContrast > 0.0
  {
    (lum + Flare) / stepContrast - Flare
  }

  /**
   * `steppedLum` inverts the contrast ratio: for a step contrast of at
   * least 1, a luminance and its stepped luminance, when both are
   * non-negative, are exactly `stepContrast` apart.
   */
  lemma SteppedLumInvertsContrastRatio(lum: real, stepContrast: real)
    requires stepContrast >= 1.0 && lum >= 0.0 && SteppedLum(lum, stepContrast) >= 0.0
    ensures ContrastRatio(lum, SteppedLum(lum, stepContrast)) == stepContrast
  {
    var a := lum + Flare;
    var q := a / stepContrast;
    assert q * stepContrast == a;
    assert q <= a;
    assert SteppedLum(lum, stepContrast) <= lum;
    assert ContrastRatio(lum, SteppedLum(lum, stepContrast)) == a / q;
    assert a / q * q == a;
  }

  /** A lower bound on how far one step lowers a non-negative luminance. */
  function MinDrop(stepContrast: real): (d: real)
    requires stepContrast > 1.0
    ensures d > 0.0
  {
    assert 1.0 / stepContrast < 1.0;
    Flare * (1.0 - 1.0 / stepContrast)
  }

  lemma SteppedLumDrops(lum: real, stepContrast: real)
    requires stepContrast > 1.0 && lum >= 0.0
    ensures SteppedLum(lum, stepContrast) <= lum - MinDrop(stepContrast)
  {
    var q := 1.0 / stepContrast;
    assert 0.0 < q < 1.0;
    assert (lum + Flare) / stepContrast == (lum + Flare) * q;
    assert lum * (1.0 - q) >= 0.0;
  }

  /**
   * Steps a and b of one iteration: the stepped target, snapped to 0 when a
   * further step would fall below 0.
   */
  function NextTarget(lum: real, stepContrast: real): (t: real)
    requires stepContrast > 0.0
    ensures t == 0.0 || t == SteppedLum(lum, stepContrast)
    ensures stepContrast > 1.0 && lum >= 0.0 ==> 0.0 <= t <= lum && (lum > 0.0 ==> t < lum)
  {
    var stepped := SteppedLum(lum, stepContrast);
    var peekLum := SteppedLum(stepped, stepContrast);
    NextTargetBounds(lum, stepContrast);
    if peekLum < 0.0 then 0.0 else stepped
  }

  lemma NextTargetBounds(lum: real, stepContrast: real)
    requires stepContrast > 0.0
    ensures var stepped := SteppedLum(lum, stepContrast);
      stepContrast > 1.0 && lum >= 0.0 && SteppedLum(stepped, stepContrast) >= 0.0 ==>
        0.0 <= stepped <= lum && (lum > 0.0 ==> stepped < lum)
  {
    var stepped := SteppedLum(lum, stepContrast);
    if stepContrast > 1.0 && lum >= 0.0 && SteppedLum(stepped, stepContrast) >= 0.0 {
      SteppedLumDrops(lum, stepContrast);
      if stepped < 0.0 {
        SteppedLumBelowZero(stepped, stepContrast);
      }
    }
  }

  lemma SteppedLumBelowZero(lum: real, stepContrast: real)
    requires stepContrast > 1.0 && lum < 0.0
    ensures SteppedLum(lum, stepContrast) < 0.0
  {
    assert (lum + Flare) / stepContrast < Flare by {
      if lum + Flare > 0.0 {
        DivideBySmaller(lum + Flare, 1.0, stepContrast);
      }
    }
  }

  /** `Array.prototype.findIndex` with the test `luminance(clr) <= lum`. */
  function FindIndexAtOrBelow(palette: seq<Rgb>, luminance: Rgb -> real, lum: real): (i: int)
    ensures -1 <= i < |palette|
    ensures i >= 0 ==> luminance(palette[i]) <= lum
    ensures i >= 0 ==> forall j :: 0 <= j < i ==> luminance(palette[j]) > lum
    ensures i == -1 ==> forall j :: 0 <= j < |palette| ==> luminance(palette[j]) > lum
  {
    if |palette| == 0 then -1
    else if luminance(palette[0]) <= lum then 0
    else
      var rest := FindIndexAtOrBelow(palette[1..], luminance, lum);
      if rest == -1 then -1 else rest + 1
  }

  /**
   * `maxRelativeLuminance`: the first palette entry whose luminance is at most
   * `lum`, or the last entry when none is.
   */
  function MaxRelativeLuminance(lum: real, palette: seq<Rgb>, luminance: Rgb -> real): (c: Rgb)
    requires |palette| > 0
    ensures c in palette
    ensures FindIndexAtOrBelow(palette, luminance, lum) >= 0 ==> c == palette[FindIndexAtOrBelow(palette, luminance, lum)]
    ensures FindIndexAtOrBelow(palette, luminance, lum) == -1 ==> c == palette[|palette| - 1]
    ensures luminance(palette[|palette| - 1]) <= lum ==> luminance(c) <= lum
  {
    var i := FindIndexAtOrBelow(palette, luminance, lum);
    if i >= 0 then palette[i] else palette[|palette| - 1]
  }

  /**
   * `maxRelativeLuminance` picks the first entry at or below `lum`: for any
   * entry `j` at or below `lum`, the pick is at or below `lum` and sits at
   * index `j` or before.
   */
  lemma MaxRelativeLuminanceIsFirstAtOrBelow(lum: real, palette: seq<Rgb>, luminance: Rgb -> real, j: int)
    requires 0 <= j < |palette| && luminance(palette[j]) <= lum
    ensures var c := MaxRelativeLuminance(lum, palette, luminance);
      luminance(c) <= lum && c in palette[..j + 1]
  {
    var i := FindIndexAtOrBelow(palette, luminance, lum);
    assert 0 <= i <= j;
    assert palette[..j + 1][i] == palette[i];
  }

  /** When no entry is at or below `lum`, `maxRelativeLuminance` falls back on the last entry. */
  lemma MaxRelativeLuminanceFallsBackOnLast(lum: real, palette: seq<Rgb>, luminance: Rgb -> real)
    requires |palette| > 0
    requires forall j :: 0 <= j < |palette| ==> luminance(palette[j]) > lum
    ensures MaxRelativeLuminance(lum, palette, luminance) == palette[|palette| - 1]
  {
  }

  /**
   * A ramp the resampler can walk: non-empty, luminances in [0, 1], the
   * lightest (first) entry at 1 and the darkest (last) entry at 0.
   */
  ghost predicate WalkableRamp(reference: seq<Rgb>, luminance: Rgb -> real)
  {
    && |reference| > 0
    && (forall j :: 0 <= j < |reference| ==> 0.0 <= luminance(reference[j]) <= 1.0)
    && luminance(reference[0]) == 1.0
    && luminance(reference[|reference| - 1]) == 0.0
  }

  /** What one iteration of the loop appends, and the running target it leaves. */
  datatype StepResult = StepResult(appended: Rgb, lum: real)

  /**
   * One iteration of the do-while loop of `createColorPaletteByContrast`, for
   * any step contrast: step, peek and snap, pick, then re-anchor `lum` on the
   * picked entry unless the target was snapped to 0.
   */
  function ContrastStep(reference: seq<Rgb>, luminance: Rgb -> real, stepContrast: real, lum: real): (s: StepResult)
    requires |reference| > 0 && stepContrast > 0.0
    ensures s.appended in reference
  {
    var target := NextTarget(lum, stepContrast);
    var refRgb := MaxRelativeLuminance(target, reference, luminance);
    StepResult(refRgb, if target > 0.0 then luminance(refRgb) else target)
  }

  /** The termination measure of the loop: the number of minimum drops left above 0, plus one. */
  function Potential(lum: real, stepContrast: real): (n: nat)
    requires stepContrast > 1.0
  {
    if lum > 0.0 then
      var q := lum / MinDrop(stepContrast);
      assert q > 0.0;
      q.Floor + 1
    else 0
  }

  lemma PotentialDrops(a: real, b: real, stepContrast: real)
    requires stepContrast > 1.0 && 0.0 < b <= a - MinDrop(stepContrast)
    ensures Potential(b, stepContrast) < Potential(a, stepContrast)
  {
    var d := MinDrop(stepContrast);
    assert a / d - b / d == (a - b) / d;
    assert (a - b) / d >= 1.0 by { DivAtLeastOne(a - b, d); }
  }

  /**
   * With a step contrast above 1 on a walkable ramp, one iteration appends an
   * entry no lighter than its target, keeps the running target in [0, 1], and
   * either stops (target 0) or lowers it by at least `MinDrop`.
   */
  lemma StepProgress(reference: seq<Rgb>, luminance: Rgb -> real, stepContrast: real, lum: real)
    requires WalkableRamp(reference, luminance) && stepContrast > 1.0 && lum >= 0.0
    ensures var s := ContrastStep(reference, luminance, stepContrast, lum);
      && luminance(s.appended) <= NextTarget(lum, stepContrast)
      && 0.0 <= s.lum <= 1.0
      && (s.lum > 0.0 ==> s.lum == luminance(s.appended) && s.lum <= lum - MinDrop(stepContrast))
      && (s.lum > 0.0 ==> Potential(s.lum, stepContrast) < Potential(lum, stepContrast))
  {
    var target := NextTarget(lum, stepContrast);
    var last := |reference| - 1;
    assert luminance(reference[last]) <= target;
    var s := ContrastStep(reference, luminance, stepContrast, lum);
    if s.lum > 0.0 {
      assert target > 0.0 && target == SteppedLum(lum, stepContrast);
      SteppedLumDrops(lum, stepContrast);
      PotentialDrops(lum, s.lum, stepContrast);
    }
  }

  /** The entries the loop appends when it starts an iteration with running target `lum`. */
  ghost function Walk(reference: seq<Rgb>, luminance: Rgb -> real, stepContrast: real, lum: real): (w: seq<Rgb>)
    requires WalkableRamp(reference, luminance) && stepContrast > 1.0 && lum >= 0.0
    decreases Potential(lum, stepContrast)
  {
    var s := ContrastStep(reference, luminance, stepContrast, lum);
    StepProgress(reference, luminance, stepContrast, lum);
    [s.appended] + if s.lum > 0.0 then Walk(reference, luminance, stepContrast, s.lum) else []
  }

  lemma WalkUnfolds(reference: seq<Rgb>, luminance: Rgb -> real, stepContrast: real, lum: real)
    requires WalkableRamp(reference, luminance) && stepContrast > 1.0 && lum >= 0.0
    ensures var s := ContrastStep(reference, luminance, stepContrast, lum);
      && s.lum >= 0.0
      && (s.lum > 0.0 ==> Potential(s.lum, stepContrast) < Potential(lum, stepContrast))
      && Walk(reference, luminance, stepContrast, lum)
         == [s.appended] + if s.lum > 0.0 then Walk(reference, luminance, stepContrast, s.lum) else []
  {
    StepProgress(reference, luminance, stepContrast, lum);
  }

  /** The output of `createColorPaletteByContrast` for a ramp: its first entry, then the walk from 1. */
  ghost function Resampled(reference: seq<Rgb>, luminance: Rgb -> real, stepContrast: real): seq<Rgb>
    requires WalkableRamp(reference, luminance) && stepContrast > 1.0
  {
    [reference[0]] + Walk(reference, luminance, stepContrast, 1.0)
  }

  lemma {:induction false} WalkFromRamp(reference: seq<Rgb>, luminance: Rgb -> real, stepContrast: real, lum: real)
    requires WalkableRamp(reference, luminance) && stepContrast > 1.0 && lum >= 0.0
    ensures var w := Walk(reference, luminance, stepContrast, lum);
      |w| >= 1 && forall i :: 0 <= i < |w| ==> w[i] in reference
    decreases Potential(lum, stepContrast)
  {
    var s := ContrastStep(reference, luminance, stepContrast, lum);
    StepProgress(reference, luminance, stepContrast, lum);
    if s.lum > 0.0 {
      WalkFromRamp(reference, luminance, stepContrast, s.lum);
    }
  }

  /**
   * The walk's entries get strictly darker, each is no lighter than the target
   * it was picked for, the first is darker than the starting target (when that
   * is positive), and the last is at luminance 0.
   */
  lemma {:induction false} WalkDescends(reference: seq<Rgb>, luminance: Rgb -> real, stepContrast: real, lum: real)
    requires WalkableRamp(reference, luminance) && stepContrast > 1.0 && lum >= 0.0
    ensures var w := Walk(reference, luminance, stepContrast, lum);
      && |w| >= 1
      && luminance(w[0]) <= NextTarget(lum, stepContrast)
      && (lum > 0.0 ==> luminance(w[0]) < lum)
      && (forall i :: 0 <= i < |w| - 1 ==> luminance(w[i]) > luminance(w[i + 1]))
      && luminance(w[|w| - 1]) == 0.0
    decreases Potential(lum, stepContrast)
  {
    var s := ContrastStep(reference, luminance, stepContrast, lum);
    StepProgress(reference, luminance, stepContrast, lum);
    WalkUnfolds(reference, luminance, stepContrast, lum);
    if s.lum > 0.0 {
      WalkDescends(reference, luminance, stepContrast, s.lum);
      PrependDescending(luminance, s.appended, Walk(reference, luminance, stepContrast, s.lum));
    } else {
      var target := NextTarget(lum, stepContrast);
      assert 0.0 <= luminance(s.appended) <= target;
      assert target <= 0.0 || luminance(s.appended) == s.lum;
    }
  }

  /** Putting a strictly lighter entry in front of a strictly descending run keeps it descending. */
  lemma PrependDescending(luminance: Rgb -> real, first: Rgb, rest: seq<Rgb>)
    requires |rest| >= 1 && luminance(first) > luminance(rest[0])
    requires forall i :: 0 <= i < |rest| - 1 ==> luminance(rest[i]) > luminance(rest[i + 1])
    ensures var w := [first] + rest;
      forall i :: 0 <= i < |w| - 1 ==> luminance(w[i]) > luminance(w[i + 1])
  {
    var w := [first] + rest;
    forall i | 0 <= i < |w| - 1
      ensures luminance(w[i]) > luminance(w[i + 1])
    {
      if i > 0 { assert w[i] == rest[i - 1] && w[i + 1] == rest[i]; }
    }
  }

  /** Two colours whose contrast ratio is at least `stepContrast`. */
  ghost predicate StepApart(luminance: Rgb -> real, lighter: Rgb, darker: Rgb, stepContrast: real)
  {
    0.0 <= luminance(lighter) && 0.0 <= luminance(darker)
    && ContrastRatio(luminance(lighter), luminance(darker)) >= stepContrast
  }

  /**
   * Every pair of neighbouring entries of the walk, except possibly the final
   * pair, has a contrast ratio of at least `stepContrast`.
   */
  lemma {:induction false} WalkKeepsStepContrast(reference: seq<Rgb>, luminance: Rgb -> real, stepContrast: real, lum: real)
    requires WalkableRamp(reference, luminance) && stepContrast > 1.0 && lum >= 0.0
    ensures var w := Walk(reference, luminance, stepContrast, lum);
      forall i :: 0 <= i < |w| - 2 ==> StepApart(luminance, w[i], w[i + 1], stepContrast)
    decreases Potential(lum, stepContrast)
  {
    var s := ContrastStep(reference, luminance, stepContrast, lum);
    StepProgress(reference, luminance, stepContrast, lum);
    var w := Walk(reference, luminance, stepContrast, lum);
    if s.lum > 0.0 {
      WalkKeepsStepContrast(reference, luminance, stepContrast, s.lum);
      var rest := Walk(reference, luminance, stepContrast, s.lum);
      assert w == [s.appended] + rest;
      if |rest| >= 2 {
        SecondPickIsStepApart(reference, luminance, stepContrast, s.lum);
        ContrastOfStep(s.lum, luminance(rest[0]), stepContrast);
        assert StepApart(luminance, w[0], w[1], stepContrast);
      }
      forall i | 0 <= i < |w| - 2
        ensures StepApart(luminance, w[i], w[i + 1], stepContrast)
      {
        if i > 0 { assert w[i] == rest[i - 1] && w[i + 1] == rest[i]; }
      }
    }
  }

  /**
   * When the walk from a re-anchored target `lum` (the luminance of the entry
   * just appended) goes on after its first pick, that pick was made for the
   * unsnapped stepped target and so is a full contrast step darker.
   */
  lemma SecondPickIsStepApart(reference: seq<Rgb>, luminance: Rgb -> real, stepContrast: real, lum: real)
    requires WalkableRamp(reference, luminance) && stepContrast > 1.0 && lum >= 0.0
    requires |Walk(reference, luminance, stepContrast, lum)| >= 2
    ensures 0.0 <= luminance(Walk(reference, luminance, stepContrast, lum)[0]) <= SteppedLum(lum, stepContrast)
  {
    var s := ContrastStep(reference, luminance, stepContrast, lum);
    StepProgress(reference, luminance, stepContrast, lum);
    assert s.lum > 0.0;
    var t := NextTarget(lum, stepContrast);
    assert t > 0.0;
  }

  /** A luminance at or below the stepped target has at least the step contrast against the start. */
  lemma ContrastOfStep(lum: real, darker: real, stepContrast: real)
    requires stepContrast > 1.0 && 0.0 <= darker <= SteppedLum(lum, stepContrast) && 0.0 <= lum
    ensures ContrastRatio(lum, darker) >= stepContrast
  {
    SteppedLumDrops(lum, stepContrast);
    var stepped := SteppedLum(lum, stepContrast);
    SteppedLumInvertsContrastRatio(lum, stepContrast);
    assert ContrastRatio(lum, stepped) == (lum + Flare) / (stepped + Flare);
    assert ContrastRatio(lum, darker) == (lum + Flare) / (darker + Flare);
    DivideBySmaller(lum + Flare, darker + Flare, stepped + Flare);
  }

  lemma DivideBySmaller(a: real, b: real, c: real)
    requires a > 0.0 && 0.0 < b <= c
    ensures a / b >= a / c
  {
    assert a / b * b == a;
    assert a / c * c == a;
    assert a / c * b <= a / c * c;
  }

  /** The loop runs at most `Potential(lum) + 1` iterations: the walk is bounded in length. */
  lemma {:induction false} WalkLengthBound(reference: seq<Rgb>, luminance: Rgb -> real, stepContrast: real, lum: real)
    requires WalkableRamp(reference, luminance) && stepContrast > 1.0 && lum >= 0.0
    ensures |Walk(reference, luminance, stepContrast, lum)| <= Potential(lum, stepContrast) + 1
    decreases Potential(lum, stepContrast)
  {
    var s := ContrastStep(reference, luminance, stepContrast, lum);
    StepProgress(reference, luminance, stepContrast, lum);
    if s.lum > 0.0 {
      WalkLengthBound(reference, luminance, stepContrast, s.lum);
    }
  }

  /**
   * What the resampled palette looks like: it starts with the ramp's first
   * entry, consists of ramp entries, has non-increasing luminance, ends at
   * luminance 0, and has at least the step contrast between every pair of
   * neighbours except possibly the final pair, whose target was snapped to 0.
   */
  lemma ResampledShape(reference: seq<Rgb>, luminance: Rgb -> real, stepContrast: real)
    requires WalkableRamp(reference, luminance) && stepContrast > 1.0
    ensures var out := Resampled(reference, luminance, stepContrast);
      && |out| >= 2
      && out[0] == reference[0]
      && (forall i :: 0 <= i < |out| ==> out[i] in reference)
      && (forall i :: 0 <= i < |out| - 1 ==> luminance(out[i]) >= luminance(out[i + 1]))
      && luminance(out[|out| - 1]) == 0.0
      && (forall i :: 0 <= i < |out| - 2 ==> StepApart(luminance, out[i], out[i + 1], stepContrast))
  {
    var w := Walk(reference, luminance, stepContrast, 1.0);
    var out := Resampled(reference, luminance, stepContrast);
    WalkFromRamp(reference, luminance, stepContrast, 1.0);
    WalkDescends(reference, luminance, stepContrast, 1.0);
    WalkKeepsStepContrast(reference, luminance, stepContrast, 1.0);
    assert out == [reference[0]] + w;
    // the first pick is at or below the first target, which lies below the first entry's luminance 1
    var target := NextTarget(1.0, stepContrast);
    assert w[0] == MaxRelativeLuminance(target, reference, luminance);
    assert luminance(w[0]) <= luminance(reference[0]);
    forall i | 0 <= i < |out| - 1
      ensures luminance(out[i]) >= luminance(out[i + 1])
    {
      if i > 0 { assert out[i] == w[i - 1] && out[i + 1] == w[i]; }
    }
    if |w| >= 2 {
      SecondPickIsStepApart(reference, luminance, stepContrast, 1.0);
      ContrastOfStep(1.0, luminance(w[0]), stepContrast);
      assert StepApart(luminance, out[0], out[1], stepContrast);
    }
    forall i | 0 <= i < |out| - 2
      ensures StepApart(luminance, out[i], out[i + 1], stepContrast)
    {
      if i > 0 { assert out[i] == w[i - 1] && out[i + 1] == w[i]; }
    }
  }

  /**
   * `createColorPaletteByContrast`: build the dense ramp, then resample it.
   */
  method CreateColorPaletteByContrast(p: ColorPrimitives, baseColor: Rgb, options: PaletteOptions)
    returns (targetPalette: seq<Rgb>)
    requires Laws(p) && options.stepContrast > 1.0
    ensures WalkableRamp(SaturationPalette(p, baseColor, options.bumpSaturation), p.relativeLuminance)
    ensures targetPalette == Resampled(SaturationPalette(p, baseColor, options.bumpSaturation), p.relativeLuminance, options.stepContrast)
  {
    var referencePalette := CreateSaturationPalette(p, baseColor, options.bumpSaturation);
    SaturationPaletteIsWalkable(p, baseColor, options.bumpSaturation);
    targetPalette := ResampleByContrast(referencePalette, p.relativeLuminance, options.stepContrast);
  }

  lemma SaturationPaletteIsWalkable(p: ColorPrimitives, baseColor: Rgb, bumpSaturation: bool)
    requires Laws(p)
    ensures WalkableRamp(SaturationPalette(p, baseColor, bumpSaturation), p.relativeLuminance)
  {
    DarkestRampEntryIsBlack(p, baseColor, bumpSaturation);
    LightestRampEntryIsWhite(p, baseColor, bumpSaturation);
  }

  /**
   * The loop of `createColorPaletteByContrast` over the dense ramp. The
   * source's do-while loop is written as a while loop: `lum` starts at 1, so
   * the first test of `lum > 0` holds and the two forms run the same
   * iterations.
   */
  method ResampleByContrast(referencePalette: seq<Rgb>, luminance: Rgb -> real, stepContrast: real)
    returns (targetPalette: seq<Rgb>)
    requires WalkableRamp(referencePalette, luminance) && stepContrast > 1.0
    ensures targetPalette == Resampled(referencePalette, luminance, stepContrast)
  {
    targetPalette := [referencePalette[0]];
    var lum := 1.0;
    while lum > 0.0
      invariant lum >= 0.0
      invariant targetPalette + Pending(referencePalette, luminance, stepContrast, lum)
        == Resampled(referencePalette, luminance, stepContrast)
      decreases Potential(lum, stepContrast)
    {
      var refRgb, next := ResampleStep(referencePalette, luminance, stepContrast, lum);
      StepAdvances(referencePalette, luminance, stepContrast, lum, refRgb, next);
      targetPalette := targetPalette + [refRgb];
      lum := next;
    }
  }

  /** The part of the walk still to be appended when the loop is about to test `lum > 0`. */
  ghost function Pending(reference: seq<Rgb>, luminance: Rgb -> real, stepContrast: real, lum: real): seq<Rgb>
    requires WalkableRamp(reference, luminance) && stepContrast > 1.0 && lum >= 0.0
  {
    if lum > 0.0 then Walk(reference, luminance, stepContrast, lum) else []
  }

  lemma StepAdvances(reference: seq<Rgb>, luminance: Rgb -> real, stepContrast: real, lum: real, refRgb: Rgb, next: real)
    requires WalkableRamp(reference, luminance) && stepContrast > 1.0 && lum > 0.0
    requires StepResult(refRgb, next) == ContrastStep(reference, luminance, stepContrast, lum)
    ensures next >= 0.0
    ensures Potential(next, stepContrast) < Potential(lum, stepContrast)
    ensures Pending(reference, luminance, stepContrast, lum) == [refRgb] + Pending(reference, luminance, stepContrast, next)
  {
    WalkUnfolds(reference, luminance, stepContrast, lum);
    assert lum / MinDrop(stepContrast) > 0.0;
  }

  /** One iteration of the resampling loop body. */
  method ResampleStep(referencePalette: seq<Rgb>, luminance: Rgb -> real, stepContrast: real, lum: real)
    returns (refRgb: Rgb, next: real)
    requires |referencePalette| > 0 && stepContrast > 1.0 && lum >= 0.0
    ensures StepResult(refRgb, next) == ContrastStep(referencePalette, luminance, stepContrast, lum)
  {
    next := SteppedLum(lum, stepContrast);
    var peekLum := SteppedLum(next, stepContrast);
    // the last drop to black is taken as it falls, with no averaging
    if peekLum < 0.0 {
      next := 0.0;
    }
    refRgb := MaxRelativeLuminance(next, referencePalette, luminance);
    if next > 0.0 {
      next := luminance(refRgb);
    }
  }

  /**
   * The loop as written, with a step contrast in (0, 1]: from any running
   * target at or above the first ramp entry's luminance, an iteration picks
   * the first entry again and re-anchors on its luminance. When that
   * luminance is positive the loop state repeats and the loop never exits.
   */
  lemma StepContrastAtMostOneStalls(reference: seq<Rgb>, luminance: Rgb -> real, stepContrast: real, lum: real)
    requires |reference| > 0 && 0.0 < stepContrast <= 1.0
    requires 0.0 < luminance(reference[0]) <= lum
    ensures ContrastStep(reference, luminance, stepContrast, lum) == StepResult(reference[0], luminance(reference[0]))
  {
    var stepped := SteppedLum(lum, stepContrast);
    AtMostOneDoesNotLower(lum, stepContrast);
    AtMostOneDoesNotLower(stepped, stepContrast);
    assert NextTarget(lum, stepContrast) == stepped;
    assert FindIndexAtOrBelow(reference, luminance, stepped) == 0;
  }

  lemma AtMostOneDoesNotLower(lum: real, stepContrast: real)
    requires 0.0 < stepContrast <= 1.0 && lum > 0.0
    ensures SteppedLum(lum, stepContrast) >= lum
  {
    assert (lum + Flare) / stepContrast >= lum + Flare by {
      DivideBySmaller(lum + Flare, stepContrast, 1.0);
    }
  }
}
