/**
 * What the two form-driven handlers share: the municipality table, the cells of a cube answer,
 * and the fixed request they send to the `incexp` aggregate endpoint, whose `cut` is a list of
 * `dim:v1;v2` segments joined with `|`.
 */
module DirectQuery {
  import opened Text
  import opened Wrappers
  import opened IntentModel
  import CutParam

  /** The demarcation codes the application knows, with their display names. */
  const Municipalities: map<string, string> := map[
    "CPT" := "City of Cape Town",
    "JHB" := "City of Johannesburg",
    "TSH" := "City of Tshwane",
    "BUF" := "Buffalo City",
    "EKU" := "Ekurhuleni",
    "ETH" := "eThekwini"
  ]

  /** A JSON value in a cell of the cube's answer. */
  datatype Value = Num(r: real) | Str(s: string) | Null

  /** One cell: a JSON object. */
  type Cell = map<string, Value>

  const AmountTypeDim := "amount_type.code"
  const DemarcationDim := "demarcation.code"
  const PeriodDim := "financial_period.period"

  const NameField := "municipality_name"
  const AmountField := "amount.sum"
  const FormattedField := "amount_formatted"

  /** `MUNICIPALITIES.get(m, m)`, with a missing query argument giving `None`. */
  function NameValue(m: Option<string>): Value {
    match m
    case None => Null
    case Some(code) => if code in Municipalities then Str(Municipalities[code]) else Str(code)
  }

  /** A query argument inside an f-string: its text, or `None` when it is missing. */
  function Show(arg: Option<string>): string {
    match arg
    case None => "None"
    case Some(s) => s
  }

  const DirectDrilldownFields := [
    "demarcation.code", "demarcation.label", "item.code", "item.label", "function.code",
    "function.label", "item.return_form_structure"
  ]

  /** The fixed drilldown: the seven fields joined with `|`. */
  const DirectDrilldown := Join("|", DirectDrilldownFields)

  /** One `dim:v1;v2` cut segment. */
  function SegmentText(d: string, vs: seq<string>): string {
    d + ":" + Join(";", vs)
  }

  /** The segments joined with `|`. */
  function JoinSegments(segs: seq<(string, seq<string>)>): string {
    Join("|", seq(|segs|, i requires 0 <= i < |segs| => SegmentText(segs[i].0, segs[i].1)))
  }

  /** `'"' + v + '"'` for each value. */
  function QuotedAll(vs: seq<string>): (r: seq<string>)
    ensures |r| == |vs|
    ensures forall i | 0 <= i < |vs| :: r[i] == CutParam.Quote(vs[i])
  {
    seq(|vs|, i requires 0 <= i < |vs| => CutParam.Quote(vs[i]))
  }

  /** The request parameters, in the order the handlers list them. */
  function DirectParams(cut: string): seq<(string, string)> {
    [("drilldown", DirectDrilldown), ("cut", cut), ("aggregates", "amount.sum"), ("pagesize", "10000")]
  }

  /** The segments whose cut text reads back unambiguously. */
  predicate Readable(segs: seq<(string, seq<string>)>) {
    forall i | 0 <= i < |segs| ::
      Avoids(segs[i].0, CutParam.IsPipe) && Avoids(segs[i].0, CutParam.IsColon) && segs[i].1 != []
      && forall v | v in segs[i].1 :: CutParam.NoValueSeparator(v)
  }

  /** The dimension names hold no `|` and no `:`. */
  lemma {:induction false} DimensionsPlain()
    ensures forall d | d in [YearDim, AmountTypeDim, DemarcationDim, PeriodDim, ItemCodeDim] ::
      Avoids(d, CutParam.IsPipe) && Avoids(d, CutParam.IsColon)
  {
  }

  lemma {:induction false} ReadableConcat(a: seq<(string, seq<string>)>, b: seq<(string, seq<string>)>)
    requires Readable(a) && Readable(b)
    ensures Readable(a + b)
  {
    forall i | 0 <= i < |a + b| ensures (a + b)[i] == if i < |a| then a[i] else b[i - |a|] {
    }
  }

  /** The cut text reads back as the segments it was built from. */
  lemma {:induction false} JoinSegmentsRoundTrip(segs: seq<(string, seq<string>)>)
    requires segs != [] && Readable(segs)
    ensures CutParam.ParseCut(JoinSegments(segs)) == segs
  {
    var texts := seq(|segs|, i requires 0 <= i < |segs| => SegmentText(segs[i].0, segs[i].1));
    forall i | 0 <= i < |segs|
      ensures Avoids(texts[i], CutParam.IsPipe) && CutParam.ParseSegment(texts[i]) == segs[i]
    {
      var (d, vs) := segs[i];
      JoinAvoids(";", vs, CutParam.IsPipe);
      CutParam.ParseSegmentOf(d, vs);
    }
    assert "|" == ['|'];
    SplitJoin('|', CutParam.IsPipe, texts);
  }

  /** Quoting keeps values free of `|` and `;`. */
  lemma {:induction false} QuotedAllReadable(vs: seq<string>)
    requires forall v | v in vs :: CutParam.NoValueSeparator(v)
    ensures forall v | v in QuotedAll(vs) :: CutParam.NoValueSeparator(v)
  {
    forall i | 0 <= i < |vs| ensures CutParam.NoValueSeparator(QuotedAll(vs)[i]) {
      assert vs[i] in vs;
      CutParam.QuoteKeepsSafe(vs[i]);
    }
  }

  /** The fixed drilldown asks for seven fields. */
  lemma {:induction false} DrilldownHasSevenFields()
    ensures Split(DirectDrilldown, CutParam.IsPipe) == DirectDrilldownFields
  {
    var fs := DirectDrilldownFields;
    forall k | 0 <= k < |fs| ensures Avoids(fs[k], CutParam.IsPipe) {
    }
    assert "|" == ['|'];
    SplitJoin('|', CutParam.IsPipe, fs);
  }

  /** The six table codes get their names; other codes, and a missing one, pass through. */
  lemma {:induction false} NameValueCases(m: Option<string>)
    ensures m == Some("CPT") ==> NameValue(m) == Str("City of Cape Town")
    ensures m == Some("JHB") ==> NameValue(m) == Str("City of Johannesburg")
    ensures m == Some("TSH") ==> NameValue(m) == Str("City of Tshwane")
    ensures m == Some("BUF") ==> NameValue(m) == Str("Buffalo City")
    ensures m == Some("EKU") ==> NameValue(m) == Str("Ekurhuleni")
    ensures m == Some("ETH") ==> NameValue(m) == Str("eThekwini")
    ensures m.Some? && m.value !in {"CPT", "JHB", "TSH", "BUF", "EKU", "ETH"} ==> NameValue(m) == Str(m.value)
    ensures m.None? ==> NameValue(m) == Null
  {
  }
}
