/**
 * The structured query the model is asked for (an "intent"), as `json.loads` hands it to the
 * query assembler. Only the shapes the assembler distinguishes are kept apart.
 */
module IntentModel {
  import opened Text
  import opened Wrappers

  /** A JSON scalar. Floating-point numbers are not modelled. */
  datatype Scalar = SNull | SBool(b: bool) | SInt(i: int) | SStr(s: string)

  /** Python's `str(x)`. */
  function PyStr(x: Scalar): string {
    match x
    case SNull => "None"
    case SBool(b) => if b then "True" else "False"
    case SInt(i) => IntText(i)
    case SStr(s) => s
  }

  /** Python's truth value of a scalar. */
  predicate Truthy(x: Scalar) {
    match x
    case SNull => false
    case SBool(b) => b
    case SInt(i) => i != 0
    case SStr(s) => s != ""
  }

  /** The `value` of a cut: a scalar, or a list (or tuple) of scalars. */
  datatype CutValue = One(x: Scalar) | Many(xs: seq<Scalar>)

  /**
   * One element of `cuts`: something that is not an object, or an object whose `dimension`
   * reads as "" when missing and whose `value` reads as `One(SNull)` when missing (the
   * source's `.get` gives `None` in both cases and treats them alike).
   */
  datatype CutEntry = NotADict | Cut(dimension: string, value: CutValue)

  /** The `cuts` member: an array of entries, or some other JSON scalar. */
  datatype Cuts = CutList(entries: seq<CutEntry>) | CutsScalar(x: Scalar)

  /** The `drilldown` member: an array of names, or anything else (which is ignored). */
  datatype Drilldown = DrillList(names: seq<string>) | DrillOther

  /** The `aggregates` member: an array of names, a string, or a falsy scalar. */
  datatype Aggregates = AggList(names: seq<string>) | AggText(text: string) | AggFalsy

  /** An intent object. `None` marks a missing key; `otherKeys` are the keys not modelled. */
  datatype Intent = Intent(
    endpoint: Option<Scalar>,
    cuts: Option<Cuts>,
    drilldown: Option<Drilldown>,
    aggregates: Option<Aggregates>,
    order: Option<Scalar>,
    pagesize: Option<Scalar>,
    otherKeys: set<string>)

  const EmptyIntent := Intent(None, None, None, None, None, None, {})

  /** `not intent`: the object has no key at all. */
  predicate IsEmptyIntent(i: Intent) {
    i.endpoint.None? && i.cuts.None? && i.drilldown.None? && i.aggregates.None?
    && i.order.None? && i.pagesize.None? && i.otherKeys == {}
  }

  const YearDim := "financial_year_end.year"
  const ItemCodeDim := "item.code"
}
