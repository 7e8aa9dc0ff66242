/**
 * Colour values and the colour-space primitives the palette engine calls.
 *
 * The primitives (LAB and HSL conversions, gamut clamping, linear RGB
 * interpolation, rounding to four decimals, relative luminance) come from a
 * floating-point library outside this model. They are passed around as a
 * record of total functions; `Laws` states the few exact facts about them
 * that the proofs rely on.
 */
module Color {

  /** A colour as red, green and blue channels (nominally in [0, 1]). */
  datatype Rgb = Rgb(r: real, g: real, b: real)

  /** A colour in CIE LAB: lightness `l` in [0, 100] and the two chroma axes. */
  datatype Lab = Lab(l: real, a: real, b: real)

  /** A colour as hue, saturation and lightness. */
  datatype Hsl = Hsl(h: real, s: real, l: real)

  /** Pure black, the ramp's dark endpoint (`new ColorRGBA64(0, 0, 0)`). */
  const Black: Rgb := Rgb(0.0, 0.0, 0.0)

  /** Pure white, the ramp's light endpoint (`new ColorRGBA64(1, 1, 1)`). */
  const White: Rgb := Rgb(1.0, 1.0, 1.0)

  /** The colour-library operations the palette engine uses, as uninterpreted functions. */
  datatype ColorPrimitives = ColorPrimitives(
    rgbToLab: Rgb -> Lab,
    labToRgb: Lab -> Rgb,
    clampRgb: Rgb -> Rgb,
    rgbToHsl: Rgb -> Hsl,
    hslToRgb: Hsl -> Rgb,
    interpolateRgb: (real, Rgb, Rgb) -> Rgb,
    roundToPrecision4: Rgb -> Rgb,
    relativeLuminance: Rgb -> real)

  /**
   * The exact facts about the primitives that the model assumes: relative
   * luminance lies in [0, 1], is 0 for black and 1 for white; interpolating
   * with fraction 0 yields the first colour and with fraction 1 the second;
   * an HSL colour of lightness 0 is black and one of lightness 1 is white;
   * black has HSL lightness 0 and white lightness 1; rounding leaves black
   * and white unchanged.
   */
  ghost predicate Laws(p: ColorPrimitives)
  {
    && (forall c :: 0.0 <= p.relativeLuminance(c) <= 1.0)
    && p.relativeLuminance(Black) == 0.0
    && (forall a, b :: p.interpolateRgb(0.0, a, b) == a)
    && (forall h, s :: p.hslToRgb(Hsl(h, s, 0.0)) == Black)
    && p.roundToPrecision4(Black) == Black
    && p.rgbToHsl(Black).l == 0.0
    && p.relativeLuminance(White) == 1.0
    && (forall a, b :: p.interpolateRgb(1.0, a, b) == b)
    && (forall h, s :: p.hslToRgb(Hsl(h, s, 1.0)) == White)
    && p.roundToPrecision4(White) == White
    && p.rgbToHsl(White).l == 1.0
  }
}
