/**
 * The saturation ramp builder of the palette engine (`createSaturationPalette`
 * and its helpers `ramp` and `saturationBump`): a dense, fixed-length ramp of
 * colours from white to black (its lightness parameter runs beyond the LAB
 * range at both ends, from 114 to -14), anchored on the LAB chroma of a
 * base colour.
 */
module SaturationRamp {
  import opened Color

  /** The ramp has one entry per half step of lightness from 114 down to -14. */
  const RampLength: nat := 257

  /** Lightness of ramp entry `i`: the loop starts at 114 and subtracts 0.5 per step. */
  function LightnessAt(i: int): real
  {
    114.0 - (i as real) / 2.0
  }

  /**
   * `ramp(l)`: maps lightness 0..50 onto 0..1 and lightness 50..100 onto 0..1,
   * through `inputval = l / 100`.
   */
  function Ramp(l: real): (r: real)
    ensures 0.0 <= l <= 100.0 ==> 0.0 <= r <= 1.0
    ensures l <= 50.0 ==> r == l / 50.0
    ensures l > 50.0 ==> r == (l - 50.0) / 50.0
  {
    var inputval := l / 100.0;
    if inputval > 0.5 then (inputval - 0.5) / 0.5 else 2.0 * inputval
  }

  lemma RampFixedPoints()
    ensures Ramp(0.0) == 0.0 && Ramp(50.0) == 1.0 && Ramp(100.0) == 1.0
  {
  }

  /** The five colours a ramp entry can be interpolated between. */
  datatype Anchor = RgbMin | Lab0 | Lab50 | Lab100 | RgbMax

  /** The anchor pair and fraction that `createSaturationPalette` uses at one lightness. */
  datatype Blend = Blend(from: Anchor, to: Anchor, fraction: real)

  /** The piecewise choice made in the loop body of `createSaturationPalette`. */
  function BlendAt(l: real): (b: Blend)
    ensures -14.0 <= l <= 114.0 ==> 0.0 <= b.fraction <= 1.0
    ensures l < 0.0 ==> b.from == RgbMin && b.to == Lab0
    ensures 0.0 <= l <= 50.0 ==> b.from == Lab0 && b.to == Lab50
    ensures 50.0 < l <= 100.0 ==> b.from == Lab50 && b.to == Lab100
    ensures 100.0 < l ==> b.from == Lab100 && b.to == RgbMax
  {
    if l < 0.0 then Blend(RgbMin, Lab0, l / 14.0 + 1.0)
    else if l <= 50.0 then Blend(Lab0, Lab50, Ramp(l))
    else if l <= 100.0 then Blend(Lab50, Lab100, Ramp(l))
    else Blend(Lab100, RgbMax, (l - 100.0) / 14.0)
  }

  /**
   * The ends of the ramp are pure black and pure white, and neighbouring
   * segments meet: each segment ends (fraction 1) on the anchor where the
   * next lighter one starts (fraction 0).
   */
  lemma BlendEndpoints()
    ensures BlendAt(LightnessAt(RampLength - 1)) == Blend(RgbMin, Lab0, 0.0)
    ensures BlendAt(LightnessAt(0)) == Blend(Lab100, RgbMax, 1.0)
    ensures BlendAt(0.0) == Blend(Lab0, Lab50, 0.0)
    ensures BlendAt(50.0) == Blend(Lab0, Lab50, 1.0)
    ensures BlendAt(100.0) == Blend(Lab50, Lab100, 1.0)
  {
    RampFixedPoints();
  }

  /** The three LAB anchors: the base colour's chroma at lightness 0, 50 and 100, clamped into gamut. */
  datatype Anchors = Anchors(lab0: Rgb, lab50: Rgb, lab100: Rgb)

  function AnchorsOf(p: ColorPrimitives, baseColor: Rgb): Anchors
  {
    var labBaseColor := p.rgbToLab(baseColor);
    Anchors(
      p.clampRgb(p.labToRgb(Lab(0.0, labBaseColor.a, labBaseColor.b))),
      p.clampRgb(p.labToRgb(Lab(50.0, labBaseColor.a, labBaseColor.b))),
      p.clampRgb(p.labToRgb(Lab(100.0, labBaseColor.a, labBaseColor.b))))
  }

  function AnchorColor(anchors: Anchors, a: Anchor): Rgb
  {
    match a
    case RgbMin => Black
    case Lab0 => anchors.lab0
    case Lab50 => anchors.lab50
    case Lab100 => anchors.lab100
    case RgbMax => White
  }

  /** The saturation `color` is raised to by `saturationBump`, and the colour it becomes. */
  function BumpedColor(p: ColorPrimitives, reference: Rgb, color: Rgb): Rgb
  {
    var hslColor := p.rgbToHsl(color);
    p.hslToRgb(Hsl(hslColor.h, p.rgbToHsl(reference).s, hslColor.l))
  }

  /**
   * `saturationBump`: a colour less saturated than `reference` is replaced by
   * the colour of the same hue and lightness at the reference's saturation;
   * any other colour is returned as it is.
   */
  function SaturationBump(p: ColorPrimitives, reference: Rgb, color: Rgb): (r: Rgb)
    ensures p.rgbToHsl(color).s >= p.rgbToHsl(reference).s ==> r == color
    ensures p.rgbToHsl(color).s < p.rgbToHsl(reference).s ==> r == BumpedColor(p, reference, color)
  {
    var saturationTarget := p.rgbToHsl(reference).s;
    var hslColor := p.rgbToHsl(color);
    if hslColor.s < saturationTarget then
      p.hslToRgb(Hsl(hslColor.h, saturationTarget, hslColor.l))
    else
      color
  }

  /**
   * Where the HSL conversion round-trips exactly at the bumped point, the
   * bumped colour is at least as saturated as both the reference and the
   * input, and keeps the input's hue and lightness.
   */
  lemma SaturationBumpRaisesSaturation(p: ColorPrimitives, reference: Rgb, color: Rgb)
    requires var c := p.rgbToHsl(color);
      p.rgbToHsl(p.hslToRgb(Hsl(c.h, p.rgbToHsl(reference).s, c.l))) == Hsl(c.h, p.rgbToHsl(reference).s, c.l)
    ensures var r := p.rgbToHsl(SaturationBump(p, reference, color));
      && r.s >= p.rgbToHsl(reference).s
      && r.s >= p.rgbToHsl(color).s
      && r.h == p.rgbToHsl(color).h
      && r.l == p.rgbToHsl(color).l
  {
  }

  /** Ramp entry at lightness `l`: blend, optionally bump saturation, round to four decimals. */
  function RampEntry(p: ColorPrimitives, anchors: Anchors, bumpSaturation: bool, l: real): Rgb
  {
    var blend := BlendAt(l);
    var rgb := p.interpolateRgb(blend.fraction, AnchorColor(anchors, blend.from), AnchorColor(anchors, blend.to));
    var bumped := if bumpSaturation then SaturationBump(p, anchors.lab50, rgb) else rgb;
    p.roundToPrecision4(bumped)
  }

  /** The whole dense ramp for a base colour, entry `i` taken at lightness `114 - i/2`. */
  function SaturationPalette(p: ColorPrimitives, baseColor: Rgb, bumpSaturation: bool): (r: seq<Rgb>)
    ensures |r| == RampLength
  {
    seq(RampLength, i requires 0 <= i < RampLength =>
      RampEntry(p, AnchorsOf(p, baseColor), bumpSaturation, LightnessAt(i)))
  }

  /**
   * `createSaturationPalette`: the 257-step loop over `l = 114, 113.5, ..., -14`.
   * Lightness steps of 0.5 are exact in binary floating point, so the real
   * arithmetic of the loop counter matches the source's.
   */
  method CreateSaturationPalette(p: ColorPrimitives, baseColor: Rgb, bumpSaturation: bool)
    returns (targetPalette: seq<Rgb>)
    ensures targetPalette == SaturationPalette(p, baseColor, bumpSaturation)
  {
    targetPalette := [];
    var anchors := AnchorsOf(p, baseColor);
    var rgbMin, rgbMax := Black, White;

    var l := 114.0;
    ghost var i := 0;
    while l >= -14.0
      invariant 0 <= i <= RampLength
      invariant l == LightnessAt(i)
      invariant |targetPalette| == i
      invariant forall j :: 0 <= j < i ==> targetPalette[j] == RampEntry(p, anchors, bumpSaturation, LightnessAt(j))
      decreases RampLength - i
    {
      var rgb: Rgb;
      if l < 0.0 {
        // below L = 0, scale from black to the L = 0 anchor
        var percentFromRgbMinToLab0 := l / 14.0 + 1.0;
        rgb := p.interpolateRgb(percentFromRgbMinToLab0, rgbMin, anchors.lab0);
      } else if l <= 50.0 {
        rgb := p.interpolateRgb(Ramp(l), anchors.lab0, anchors.lab50);
      } else if l <= 100.0 {
        rgb := p.interpolateRgb(Ramp(l), anchors.lab50, anchors.lab100);
      } else {
        // above L = 100, scale from the L = 100 anchor to white
        var percentFromLab100ToRgbMax := (l - 100.0) / 14.0;
        rgb := p.interpolateRgb(percentFromLab100ToRgbMax, anchors.lab100, rgbMax);
      }
      if bumpSaturation {
        rgb := SaturationBump(p, anchors.lab50, rgb);
      }
      rgb := p.roundToPrecision4(rgb);
      targetPalette := targetPalette + [rgb];
      l := l - 0.5;
      i := i + 1;
    }
  }

  /**
   * Under the exact laws of the colour primitives, the last (darkest) ramp
   * entry is pure black: fraction 0 from black, a bump at lightness 0 stays
   * black, and rounding keeps it.
   */
  lemma DarkestRampEntryIsBlack(p: ColorPrimitives, baseColor: Rgb, bumpSaturation: bool)
    requires Laws(p)
    ensures SaturationPalette(p, baseColor, bumpSaturation)[RampLength - 1] == Black
    ensures p.relativeLuminance(SaturationPalette(p, baseColor, bumpSaturation)[RampLength - 1]) == 0.0
  {
    var anchors := AnchorsOf(p, baseColor);
    BlendEndpoints();
    var rgb := p.interpolateRgb(0.0, Black, anchors.lab0);
    assert rgb == Black;
    var c := p.rgbToHsl(Black);
    assert p.hslToRgb(Hsl(c.h, p.rgbToHsl(anchors.lab50).s, 0.0)) == Black;
    assert SaturationBump(p, anchors.lab50, rgb) == Black;
  }

  /**
   * Under the exact laws of the colour primitives, the first (lightest) ramp
   * entry is pure white: fraction 1 towards white, a bump at lightness 1
   * stays white, and rounding keeps it.
   */
  lemma LightestRampEntryIsWhite(p: ColorPrimitives, baseColor: Rgb, bumpSaturation: bool)
    requires Laws(p)
    ensures SaturationPalette(p, baseColor, bumpSaturation)[0] == White
    ensures p.relativeLuminance(SaturationPalette(p, baseColor, bumpSaturation)[0]) == 1.0
  {
    var anchors := AnchorsOf(p, baseColor);
    BlendEndpoints();
    var rgb := p.interpolateRgb(1.0, anchors.lab100, White);
    assert rgb == White;
    var c := p.rgbToHsl(White);
    assert p.hslToRgb(Hsl(c.h, p.rgbToHsl(anchors.lab50).s, 1.0)) == White;
    assert SaturationBump(p, anchors.lab50, rgb) == White;
  }
}
