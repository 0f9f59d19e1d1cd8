/**
 * The configuration of a `DclQueryBuilder`: the three reserved parameter
 * keys, fixed once by the constructor, and the per-call decoding options.
 */
module BuilderOptions {
  import opened Wrappers
  import opened Numbers

  /** `DclQueryBuilderOptions`. */
  datatype Options = Options(pageParamKey: string, limitParamKey: string, sortParamKey: string)

  /** `DEFAULT_OPTIONS`. */
  const DefaultOptions := Options("_page", "_limit", "_sort")

  /** `Partial<DclQueryBuilderOptions>`: each key may be left out. */
  datatype PartialOptions = PartialOptions(
    pageParamKey: Option<string>,
    limitParamKey: Option<string>,
    sortParamKey: Option<string>)

  const NoOptions := PartialOptions(None, None, None)

  /**
   * The constructor's `{ ...DEFAULT_OPTIONS, ...options }`: every key that is
   * supplied wins over its default, every key left out keeps the default.
   */
  function MergeOptions(supplied: PartialOptions): (o: Options)
    ensures supplied.pageParamKey.Some? ==> o.pageParamKey == supplied.pageParamKey.value
    ensures supplied.pageParamKey.None? ==> o.pageParamKey == DefaultOptions.pageParamKey
    ensures supplied.limitParamKey.Some? ==> o.limitParamKey == supplied.limitParamKey.value
    ensures supplied.limitParamKey.None? ==> o.limitParamKey == DefaultOptions.limitParamKey
    ensures supplied.sortParamKey.Some? ==> o.sortParamKey == supplied.sortParamKey.value
    ensures supplied.sortParamKey.None? ==> o.sortParamKey == DefaultOptions.sortParamKey
  {
    Options(
      supplied.pageParamKey.GetOr(DefaultOptions.pageParamKey),
      supplied.limitParamKey.GetOr(DefaultOptions.limitParamKey),
      supplied.sortParamKey.GetOr(DefaultOptions.sortParamKey))
  }

  /** Supplying every key yields exactly those keys; supplying none yields the defaults. */
  lemma MergeOptionsExtremes(o: Options)
    ensures MergeOptions(PartialOptions(Some(o.pageParamKey), Some(o.limitParamKey), Some(o.sortParamKey))) == o
    ensures MergeOptions(NoOptions) == DefaultOptions
  {
  }

  /** The keys the encoder writes page, limit and sort under, which the decoder does not read as filters. */
  predicate IsReservedKey(opts: Options, k: string) {
    k == opts.pageParamKey || k == opts.limitParamKey || k == opts.sortParamKey
  }

  /** Three different reserved keys, as the defaults are. */
  predicate DistinctKeys(opts: Options) {
    opts.pageParamKey != opts.limitParamKey && opts.pageParamKey != opts.sortParamKey
    && opts.limitParamKey != opts.sortParamKey
  }

  /** The options of one decoding call; an absent `allowComaSeparatedArrays` is false. */
  datatype DecodeOptions = DecodeOptions(
    defaultPage: Option<Number>,
    defaultLimit: Option<Number>,
    allowComaSeparatedArrays: bool)
}
