/**
 * The form-driven handler of the back-end service: it defaults the amount type and the period,
 * builds the cut for the `incexp` aggregate request, and names the municipality in every cell of
 * the answer.
 */
module BackendApp {
  import opened Text
  import opened Wrappers
  import opened IntentModel
  import opened DirectQuery
  import CutParam


  /** `request.args.get('amount_type', 'AUDA')`: the default applies only when the argument is missing. */
  function AmountTypeOrDefault(amountType: Option<string>): string {
    if amountType.None? then "AUDA" else amountType.value
  }

  /** `request.args.get('financial_period') or year`, as it appears in the f-string. */
  function PeriodText(period: Option<string>, year: Option<string>): string {
    if period.Some? && period.value != "" then period.value else Show(year)
  }

  /** `code.strip()` for each comma-separated piece of the argument. */
  function StrippedCodes(itemCodes: string): (r: seq<string>)
    ensures |r| >= 1
  {
    var parts := Split(itemCodes, IsComma);
    seq(|parts|, i requires 0 <= i < |parts| => Strip(parts[i]))
  }

  /**
   * The cut segments: year, amount type, period and quoted municipality, then the quoted item
   * codes when the argument is non-empty.
   */
  function BackendSegments(municipality: Option<string>, year: Option<string>, amountType: Option<string>,
                           period: Option<string>, itemCodes: Option<string>): seq<(string, seq<string>)>
  {
    [(YearDim, [Show(year)]), (AmountTypeDim, [AmountTypeOrDefault(amountType)]),
     (PeriodDim, [PeriodText(period, year)]), (DemarcationDim, [CutParam.Quote(Show(municipality))])]
    + (if itemCodes.Some? && itemCodes.value != "" then [(ItemCodeDim, QuotedAll(StrippedCodes(itemCodes.value)))] else [])
  }

  method GetMunicipalityData(municipality: Option<string>, year: Option<string>, amountType: Option<string>,
                             period: Option<string>, itemCodes: Option<string>)
    returns (params: seq<(string, string)>)
    ensures params == DirectParams(JoinSegments(BackendSegments(municipality, year, amountType, period, itemCodes)))
  {
    var amount := if amountType.None? then "AUDA" else amountType.value;
    var financialPeriod := if period.Some? && period.value != "" then period.value else Show(year);
    ghost var segs := [(YearDim, [Show(year)]), (AmountTypeDim, [amount]), (PeriodDim, [financialPeriod]),
                       (DemarcationDim, [CutParam.Quote(Show(municipality))])];
    var cutFilters := [
      YearDim + ":" + Show(year),
      AmountTypeDim + ":" + amount,
      PeriodDim + ":" + financialPeriod,
      DemarcationDim + ":" + CutParam.Quote(Show(municipality))
    ];
    assert cutFilters == seq(|segs|, i requires 0 <= i < |segs| => SegmentText(segs[i].0, segs[i].1));
    if itemCodes.Some? && itemCodes.value != "" {
      var itemFilter := Join(";", QuotedAll(StrippedCodes(itemCodes.value)));
      cutFilters := cutFilters + [ItemCodeDim + ":" + itemFilter];
      segs := segs + [(ItemCodeDim, QuotedAll(StrippedCodes(itemCodes.value)))];
    }
    assert cutFilters == seq(|segs|, i requires 0 <= i < |segs| => SegmentText(segs[i].0, segs[i].1));
    assert segs == BackendSegments(municipality, year, amountType, period, itemCodes);
    params := [("drilldown", DirectDrilldown), ("cut", Join("|", cutFilters)),
               ("aggregates", "amount.sum"), ("pagesize", "10000")];
  }

  /** The arguments from which the cut reads back unambiguously. */
  predicate PlainArguments(municipality: Option<string>, year: Option<string>, amountType: Option<string>,
                           period: Option<string>, itemCodes: Option<string>)
  {
    && CutParam.NoValueSeparator(Show(municipality)) && CutParam.NoValueSeparator(Show(year))
    && CutParam.NoValueSeparator(AmountTypeOrDefault(amountType))
    && CutParam.NoValueSeparator(PeriodText(period, year))
    && (itemCodes.Some? ==> CutParam.NoValueSeparator(itemCodes.value))
  }

  /** Stripped pieces of text free of separators are free of separators. */
  lemma {:induction false} StrippedCodesPlain(s: string)
    requires CutParam.NoValueSeparator(s)
    ensures forall v | v in StrippedCodes(s) :: CutParam.NoValueSeparator(v)
  {
    SplitChars(s, IsComma);
  }

  /** Every segment of the cut has a plain dimension and at least one value free of separators. */
  lemma {:induction false} SegmentsReadable(municipality: Option<string>, year: Option<string>,
                                            amountType: Option<string>, period: Option<string>,
                                            itemCodes: Option<string>)
    requires PlainArguments(municipality, year, amountType, period, itemCodes)
    ensures Readable(BackendSegments(municipality, year, amountType, period, itemCodes))
  {
    DimensionsPlain();
    CutParam.QuoteKeepsSafe(Show(municipality));
    var fixed := [(YearDim, [Show(year)]), (AmountTypeDim, [AmountTypeOrDefault(amountType)]),
                  (PeriodDim, [PeriodText(period, year)]), (DemarcationDim, [CutParam.Quote(Show(municipality))])];
    var itemSeg := if itemCodes.Some? && itemCodes.value != "" then [(ItemCodeDim, QuotedAll(StrippedCodes(itemCodes.value)))] else [];
    assert Readable(fixed);
    if itemCodes.Some? {
      StrippedCodesPlain(itemCodes.value);
      QuotedAllReadable(StrippedCodes(itemCodes.value));
    }
    assert Readable(itemSeg);
    ReadableConcat(fixed, itemSeg);
  }

  /**
   * The cut reads back as year, amount type (`AUDA` when missing), period (the year when missing
   * or empty) and quoted municipality, then one segment with every stripped item code quoted
   * exactly when the argument is non-empty.
   */
  lemma {:induction false} CutReadsBack(municipality: Option<string>, year: Option<string>,
                                        amountType: Option<string>, period: Option<string>,
                                        itemCodes: Option<string>)
    requires PlainArguments(municipality, year, amountType, period, itemCodes)
    ensures var segs := CutParam.ParseCut(JoinSegments(BackendSegments(municipality, year, amountType, period, itemCodes)));
      var withCodes := itemCodes.Some? && itemCodes.value != "";
      && |segs| == (if withCodes then 5 else 4)
      && segs[0] == (YearDim, [Show(year)])
      && segs[1] == (AmountTypeDim, [if amountType.None? then "AUDA" else amountType.value])
      && segs[2] == (PeriodDim, [if period.None? || period.value == "" then Show(year) else period.value])
      && segs[3] == (DemarcationDim, [CutParam.Quote(Show(municipality))])
      && (withCodes ==> segs[4] == (ItemCodeDim, QuotedAll(StrippedCodes(itemCodes.value))))
  {
    var segs := BackendSegments(municipality, year, amountType, period, itemCodes);
    assert CutParam.ParseCut(JoinSegments(segs)) == segs by {
      SegmentsReadable(municipality, year, amountType, period, itemCodes);
      JoinSegmentsRoundTrip(segs);
    }
    BackendSegmentsShape(municipality, year, amountType, period, itemCodes);
  }

  lemma {:induction false} BackendSegmentsShape(municipality: Option<string>, year: Option<string>,
                                                amountType: Option<string>, period: Option<string>,
                                                itemCodes: Option<string>)
    ensures var segs := BackendSegments(municipality, year, amountType, period, itemCodes);
      var withCodes := itemCodes.Some? && itemCodes.value != "";
      && |segs| == (if withCodes then 5 else 4)
      && segs[0] == (YearDim, [Show(year)])
      && segs[1] == (AmountTypeDim, [if amountType.None? then "AUDA" else amountType.value])
      && segs[2] == (PeriodDim, [if period.None? || period.value == "" then Show(year) else period.value])
      && segs[3] == (DemarcationDim, [CutParam.Quote(Show(municipality))])
      && (withCodes ==> segs[4] == (ItemCodeDim, QuotedAll(StrippedCodes(itemCodes.value))))
  {
  }

  /** Each cell of the answer gets the municipality's name; nothing else in it changes. */
  method AnnotateCells(cells: array<Cell>, municipality: Option<string>)
    modifies cells
    ensures forall i | 0 <= i < cells.Length :: cells[i] == old(cells[i])[NameField := NameValue(municipality)]
    ensures forall i | 0 <= i < cells.Length ::
      && cells[i][NameField] == NameValue(municipality)
      && (forall f | f != NameField :: (f in cells[i] <==> f in old(cells[i])) && (f in cells[i] ==> cells[i][f] == old(cells[i])[f]))
  {
    for i := 0 to cells.Length
      invariant forall k | 0 <= k < i :: cells[k] == old(cells[k])[NameField := NameValue(municipality)]
      invariant forall k | i <= k < cells.Length :: cells[k] == old(cells[k])
    {
      cells[i] := cells[i][NameField := NameValue(municipality)];
    }
  }
}
