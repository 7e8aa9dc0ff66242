/** The palette options and `from`'s merge of caller options over the defaults. */
module PaletteOptions {
  import opened Wrappers

  /** Options for generating a palette. */
  datatype PaletteOptions = PaletteOptions(bumpSaturation: bool, stepContrast: real)

  /** `defaultPaletteOptions`. */
  const DefaultPaletteOptions: PaletteOptions := PaletteOptions(true, 1.06)

  /** A `Partial<PaletteOptions>`: `None` stands for a key that is absent. */
  datatype PartialPaletteOptions = PartialPaletteOptions(bumpSaturation: Option<bool>, stepContrast: Option<real>)

  /**
   * The options `from` uses: the defaults when no options object is passed
   * (`undefined` or `null`, both `None` here), otherwise every key the caller
   * gave overrides the default and every key left out keeps it.
   */
  function MergeOptions(options: Option<PartialPaletteOptions>): (r: PaletteOptions)
    ensures options.None? ==> r == DefaultPaletteOptions
    ensures options.Some? && options.value.bumpSaturation.Some? ==> r.bumpSaturation == options.value.bumpSaturation.value
    ensures options.Some? && options.value.bumpSaturation.None? ==> r.bumpSaturation == DefaultPaletteOptions.bumpSaturation
    ensures options.Some? && options.value.stepContrast.Some? ==> r.stepContrast == options.value.stepContrast.value
    ensures options.Some? && options.value.stepContrast.None? ==> r.stepContrast == DefaultPaletteOptions.stepContrast
  {
    match options
    case None => DefaultPaletteOptions
    case Some(o) =>
      PaletteOptions(
        match o.bumpSaturation { case Some(v) => v case None => DefaultPaletteOptions.bumpSaturation },
        match o.stepContrast { case Some(v) => v case None => DefaultPaletteOptions.stepContrast })
  }

  /** An empty options object means the same as none; a complete one is taken as it is. */
  lemma MergeOptionsLaws(o: PaletteOptions)
    ensures MergeOptions(Some(PartialPaletteOptions(None, None))) == MergeOptions(None)
    ensures MergeOptions(Some(PartialPaletteOptions(Some(o.bumpSaturation), Some(o.stepContrast)))) == o
    ensures MergeOptions(None) == PaletteOptions(true, 1.06)
  {
  }
}
