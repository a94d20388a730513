/**
 * The last stage of the request-to-URL pipeline: the model's intent has its cuts overridden by the
 * item codes and years found locally, the URL is assembled, and a URL the validator rejects is an
 * error. The intent, the resolver's codes and the extracted years are the inputs.
 */
module QueryPipeline {
  import opened Text
  import opened Wrappers
  import opened IntentModel
  import opened IncexpUrl

  /** The exceptions the stage can raise. */
  datatype PipelineError =
    | NoIntent            // the model's answer gave an empty object, or nothing parseable
    | CutsNotAList        // `cuts` is a scalar the stage cannot append to or iterate over
    | CutNotAnObject      // an element of `cuts` has no `.get`
    | InvalidUrl(url: string)

  /** The cut the stage adds for a dimension: its values as a list of strings. */
  function ListCut(dimension: string, values: seq<string>): CutEntry {
    Cut(dimension, Many(seq(|values|, i requires 0 <= i < |values| => SStr(values[i]))))
  }

  /** `[c for c in cuts if c.get("dimension") != d]` for object entries. */
  function Without(es: seq<CutEntry>, d: string): seq<CutEntry> {
    if es == [] then []
    else
      var init := Without(es[..|es| - 1], d);
      var e := es[|es| - 1];
      if e.Cut? && e.dimension == d then init else init + [e]
  }

  /** The entries of `es` for dimension `d`, in order. */
  function WithDim(es: seq<CutEntry>, d: string): seq<CutEntry> {
    if es == [] then []
    else
      var init := WithDim(es[..|es| - 1], d);
      var e := es[|es| - 1];
      if e.Cut? && e.dimension == d then init + [e] else init
  }

  predicate AllObjects(es: seq<CutEntry>) {
    forall i | 0 <= i < |es| :: es[i].Cut?
  }

  /** The model's cuts as the stage iterates them: `intent.get("cuts", [])`. */
  function ModelCuts(cuts: Option<Cuts>, codes: seq<string>): Result<seq<CutEntry>, PipelineError> {
    match cuts
    case None => Success([])
    case Some(CutList(es)) => if AllObjects(es) then Success(es) else Failure(CutNotAnObject)
    // an empty string can be iterated (yielding nothing) but not appended to
    case Some(CutsScalar(x)) => if x == SStr("") && codes == [] then Success([]) else Failure(CutsNotAList)
  }

  /** The cuts after the override: the specification the stage is proved against. */
  function OverriddenCuts(cuts: Option<Cuts>, codes: seq<string>, years: seq<string>)
    : Result<seq<CutEntry>, PipelineError>
  {
    match ModelCuts(cuts, codes)
    case Failure(e) => Failure(e)
    case Success(es) =>
      var withItems := if codes != [] then es + [ListCut(ItemCodeDim, codes)] else Without(es, ItemCodeDim);
      var noYears := Without(withItems, YearDim);
      Success(if years != [] then noYears + [ListCut(YearDim, years)] else noYears)
  }

  method GetIncexpUrlFromUserRequest(intent: Intent, codes: seq<string>, years: seq<string>)
    returns (r: Result<string, PipelineError>)
    ensures IsEmptyIntent(intent) ==> r == Failure(NoIntent)
    ensures !IsEmptyIntent(intent) ==> match OverriddenCuts(intent.cuts, codes, years)
      case Failure(e) => r == Failure(e)
      case Success(cuts) =>
        var url := IncexpUrlOf(intent.(cuts := Some(CutList(cuts))));
        r == if IsValidIncexpUrl(url) then Success(url) else Failure(InvalidUrl(url))
    ensures r.Success? ==> IsValidIncexpUrl(r.value)
    ensures r.Failure? && r.error.InvalidUrl? ==> !Avoids(EndpointText(intent), IsHash)
  {
    if IsEmptyIntent(intent) {
      return Failure(NoIntent);
    }
    var model := ModelCuts(intent.cuts, codes);
    if model.Failure? {
      return Failure(model.error);
    }
    var cuts := model.value;
    if codes != [] {
      cuts := cuts + [ListCut(ItemCodeDim, codes)];
    } else {
      cuts := Without(cuts, ItemCodeDim);
    }
    cuts := Without(cuts, YearDim);
    if years != [] {
      cuts := cuts + [ListCut(YearDim, years)];
    }
    var updated := intent.(cuts := Some(CutList(cuts)));
    var url := BuildIncexpUrl(updated);
    if !IsValidIncexpUrl(url) {
      if Avoids(EndpointText(intent), IsHash) {
        assert EndpointText(updated) == EndpointText(intent);
        BuiltUrlIsValid(updated);
      }
      return Failure(InvalidUrl(url));
    }
    return Success(url);
  }

  /** Filtering out a dimension keeps the other entries and their order. */
  lemma {:induction false} WithDimWithout(es: seq<CutEntry>, removed: string, d: string)
    ensures WithDim(Without(es, removed), d) == if d == removed then [] else WithDim(es, d)
  {
    if es != [] {
      var init := es[..|es| - 1];
      WithDimWithout(init, removed, d);
      var e := es[|es| - 1];
      if !(e.Cut? && e.dimension == removed) {
        WithDimAppend(Without(init, removed), e, d);
      }
    }
  }

  lemma {:induction false} WithDimAppend(es: seq<CutEntry>, e: CutEntry, d: string)
    ensures WithDim(es + [e], d) == WithDim(es, d) + (if e.Cut? && e.dimension == d then [e] else [])
  {
    assert (es + [e])[..|es + [e]| - 1] == es;
  }

  /** Filtering out a dimension leaves only objects when it starts from objects. */
  lemma {:induction false} WithoutKeepsObjects(es: seq<CutEntry>, removed: string)
    requires AllObjects(es)
    ensures AllObjects(Without(es, removed))
  {
    if es != [] {
      var init := es[..|es| - 1];
      WithoutKeepsObjects(init, removed);
      var e := es[|es| - 1];
      if !(e.Cut? && e.dimension == removed) {
        AppendObject(Without(init, removed), e);
      }
    }
  }

  /** Filtering out a dimension leaves entries of the input, none of them for that dimension. */
  lemma {:induction false} WithoutRemoves(es: seq<CutEntry>, removed: string)
    ensures forall e | e in Without(es, removed) :: e in es && !(e.Cut? && e.dimension == removed)
  {
    if es != [] {
      var init := es[..|es| - 1];
      WithoutRemoves(init, removed);
      assert forall e | e in init :: e in es;
    }
  }

  lemma AppendObject(es: seq<CutEntry>, e: CutEntry)
    requires AllObjects(es) && e.Cut?
    ensures AllObjects(es + [e])
  {
  }

  /**
   * When the resolver finds codes, the model's item-code cuts stay and one cut holding the codes
   * follows them; without codes, no item-code cut is left.
   */
  lemma {:induction false} ItemCutsPolicy(cuts: Option<Cuts>, codes: seq<string>, years: seq<string>)
    requires OverriddenCuts(cuts, codes, years).Success?
    ensures var out := OverriddenCuts(cuts, codes, years).value;
      WithDim(out, ItemCodeDim)
        == if codes != [] then WithDim(ModelCuts(cuts, codes).value, ItemCodeDim) + [ListCut(ItemCodeDim, codes)]
           else []
  {
    var es := ModelCuts(cuts, codes).value;
    var withItems := if codes != [] then es + [ListCut(ItemCodeDim, codes)] else Without(es, ItemCodeDim);
    var noYears := Without(withItems, YearDim);
    WithDimWithout(withItems, YearDim, ItemCodeDim);
    if codes != [] {
      WithDimAppend(es, ListCut(ItemCodeDim, codes), ItemCodeDim);
    } else {
      WithDimWithout(es, ItemCodeDim, ItemCodeDim);
    }
    if years != [] {
      WithDimAppend(noYears, ListCut(YearDim, years), ItemCodeDim);
    }
  }

  /** Every year cut of the model goes; exactly one holding the extracted years comes last. */
  lemma {:induction false} YearCutsPolicy(cuts: Option<Cuts>, codes: seq<string>, years: seq<string>)
    requires OverriddenCuts(cuts, codes, years).Success?
    ensures var out := OverriddenCuts(cuts, codes, years).value;
      && WithDim(out, YearDim) == (if years != [] then [ListCut(YearDim, years)] else [])
      && (years != [] ==> out[|out| - 1] == ListCut(YearDim, years))
  {
    var es := ModelCuts(cuts, codes).value;
    var withItems := if codes != [] then es + [ListCut(ItemCodeDim, codes)] else Without(es, ItemCodeDim);
    var noYears := Without(withItems, YearDim);
    WithDimWithout(withItems, YearDim, YearDim);
    if years != [] {
      WithDimAppend(noYears, ListCut(YearDim, years), YearDim);
    }
  }

  /** The cuts of every other dimension pass through untouched and in order. */
  lemma {:induction false} OtherCutsKept(cuts: Option<Cuts>, codes: seq<string>, years: seq<string>, d: string)
    requires OverriddenCuts(cuts, codes, years).Success?
    requires d != ItemCodeDim && d != YearDim
    ensures WithDim(OverriddenCuts(cuts, codes, years).value, d) == WithDim(ModelCuts(cuts, codes).value, d)
  {
    var es := ModelCuts(cuts, codes).value;
    var withItems := if codes != [] then es + [ListCut(ItemCodeDim, codes)] else Without(es, ItemCodeDim);
    var noYears := Without(withItems, YearDim);
    WithDimWithout(withItems, YearDim, d);
    if codes != [] {
      WithDimAppend(es, ListCut(ItemCodeDim, codes), d);
    } else {
      WithDimWithout(es, ItemCodeDim, d);
    }
    if years != [] {
      WithDimAppend(noYears, ListCut(YearDim, years), d);
    }
  }

  /**
   * The override fails exactly when `cuts` is a scalar other than an empty string left alone, or
   * holds an element that is not an object.
   */
  lemma {:induction false} OverrideFailures(cuts: Option<Cuts>, codes: seq<string>, years: seq<string>)
    ensures OverriddenCuts(cuts, codes, years).Failure? <==>
      || (cuts.Some? && cuts.value.CutsScalar? && !(cuts.value.x == SStr("") && codes == []))
      || (cuts.Some? && cuts.value.CutList? && exists i | 0 <= i < |cuts.value.entries| :: cuts.value.entries[i].NotADict?)
  {
  }

  /** Every cut the override produces is an object, so the URL builder accepts all of them. */
  lemma {:induction false} OverriddenCutsAreObjects(cuts: Option<Cuts>, codes: seq<string>, years: seq<string>)
    requires OverriddenCuts(cuts, codes, years).Success?
    ensures AllObjects(OverriddenCuts(cuts, codes, years).value)
  {
    var es := ModelCuts(cuts, codes).value;
    assert AllObjects(es);
    var withItems := if codes != [] then es + [ListCut(ItemCodeDim, codes)] else Without(es, ItemCodeDim);
    assert AllObjects(withItems) by {
      if codes != [] {
        AppendObject(es, ListCut(ItemCodeDim, codes));
      } else {
        WithoutKeepsObjects(es, ItemCodeDim);
      }
    }
    var noYears := Without(withItems, YearDim);
    WithoutKeepsObjects(withItems, YearDim);
    if years != [] {
      AppendObject(noYears, ListCut(YearDim, years));
    }
  }
}
