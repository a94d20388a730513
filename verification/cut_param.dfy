/**
 * The `cut` parameter of an incexp cube query: `dim:v1;v2|dim2:v3`, one segment per dimension,
 * with the per-dimension quoting of the treasury API and no percent-encoding.
 */
module CutParam {
  import opened Text
  import opened Wrappers
  import opened IntentModel

  function Quote(v: string): string { "\"" + v + "\"" }

  predicate IsDoubleQuote(c: char) { c == '"' }
  predicate IsSingleQuote(c: char) { c == '\'' }

  /** `str(val).strip('"').strip("'")`. */
  function CutText(x: Scalar): string {
    Trim(Trim(PyStr(x), IsDoubleQuote), IsSingleQuote)
  }

  /**
   * How one cut value is written: never quoted for a year, always for an item code or when
   * forced, and otherwise bare exactly when it is all digits or holds a hyphen.
   */
  function FormatCutValue(x: Scalar, alwaysQuote: bool, dimension: string): (r: string)
    ensures dimension == YearDim ==> r == CutText(x)
    ensures dimension != YearDim && (dimension == ItemCodeDim || alwaysQuote) ==> r == Quote(CutText(x))
    ensures dimension != YearDim && dimension != ItemCodeDim && !alwaysQuote ==>
      (r == CutText(x) || r == Quote(CutText(x)))
      && (r == CutText(x) <==> IsDigits(CutText(x)) || '-' in CutText(x))
  {
    var v := CutText(x);
    if dimension == YearDim then v
    else if dimension == ItemCodeDim then Quote(v)
    else if alwaysQuote then Quote(v)
    else if IsDigits(v) || '-' in v then v
    else Quote(v)
  }

  predicate IsCutSep(c: char) { c == ';' || c == ',' }

  /** The entries `build_cut_param` keeps: objects with a non-empty dimension and a non-null value. */
  predicate Accepted(c: CutEntry) {
    c.Cut? && c.dimension != "" && c.value != One(SNull)
  }

  predicate AcceptedWith(c: CutEntry, d: string) {
    Accepted(c) && c.dimension == d
  }

  /** The values an entry contributes: its list, its string split at `;`/`,`, or itself. */
  function EntryValues(v: CutValue): seq<Scalar> {
    match v
    case Many(xs) => xs
    case One(SStr(s)) =>
      if ';' in s || ',' in s then
        var parts := Split(s, IsCutSep);
        seq(|parts|, i requires 0 <= i < |parts| => SStr(Strip(parts[i])))
      else [SStr(s)]
    case One(x) => [x]
  }

  /** The formatted values of one entry; an entry with several values has every one quoted. */
  function FormattedValues(dim: string, v: CutValue): seq<string> {
    FormattedList(dim, EntryValues(v))
  }

  function FormattedList(dim: string, vals: seq<Scalar>): seq<string> {
    seq(|vals|, i requires 0 <= i < |vals| => FormatCutValue(vals[i], |vals| > 1, dim))
  }

  /** The distinct dimensions of the accepted entries, in order of first appearance. */
  function Dims(es: seq<CutEntry>): seq<string> {
    if es == [] then []
    else
      var d := Dims(es[..|es| - 1]);
      var c := es[|es| - 1];
      if Accepted(c) && c.dimension !in d then d + [c.dimension] else d
  }

  /** The formatted values of every accepted entry for `d`, in input order. */
  function ValuesOf(es: seq<CutEntry>, d: string): seq<string> {
    if es == [] then []
    else
      var c := es[|es| - 1];
      ValuesOf(es[..|es| - 1], d) + (if AcceptedWith(c, d) then FormattedValues(d, c.value) else [])
  }

  function Segment(es: seq<CutEntry>, d: string): string {
    d + ":" + Join(";", ValuesOf(es, d))
  }

  function Segments(es: seq<CutEntry>): seq<string> {
    var ds := Dims(es);
    seq(|ds|, i requires 0 <= i < |ds| => Segment(es, ds[i]))
  }

  /** The cut string for a list of entries. */
  function CutString(es: seq<CutEntry>): string {
    Join("|", Segments(es))
  }

  /** What `build_cut_param` returns: a non-list `cuts` gives the empty string. */
  function CutParamOf(cuts: Option<Cuts>): string {
    if cuts.Some? && cuts.value.CutList? then CutString(cuts.value.entries) else ""
  }

  method BuildCutParam(cuts: Option<Cuts>) returns (r: string)
    ensures r == CutParamOf(cuts)
  {
    var dims: seq<string> := [];
    var parts: map<string, seq<string>> := map[];
    if cuts.Some? && cuts.value.CutList? {
      dims, parts := GroupValues(cuts.value.entries);
    }
    var segments := seq(|dims|, i requires 0 <= i < |dims| && dims[i] in parts => dims[i] + ":" + Join(";", parts[dims[i]]));
    assert cuts.Some? && cuts.value.CutList? ==> segments == Segments(cuts.value.entries);
    r := Join("|", segments);
  }

  /**
   * The grouping loop of `build_cut_param`: the dimensions in first-appearance order, and for
   * each the formatted values of all its entries.
   */
  method GroupValues(es: seq<CutEntry>) returns (dims: seq<string>, parts: map<string, seq<string>>)
    ensures dims == Dims(es)
    ensures forall d :: d in parts <==> d in dims
    ensures forall d | d in parts :: parts[d] == ValuesOf(es, d)
  {
    dims, parts := [], map[];
    for k := 0 to |es|
      invariant dims == Dims(es[..k])
      invariant forall d :: d in parts <==> d in dims
      invariant forall d | d in parts :: parts[d] == ValuesOf(es[..k], d)
      invariant forall d | d !in parts :: ValuesOf(es[..k], d) == []
    {
      dims, parts := AddEntry(es, k, dims, parts);
    }
    assert es[..|es|] == es;
  }

  /** The body of the grouping loop: entry `k` joins its dimension's values when it is accepted. */
  method AddEntry(es: seq<CutEntry>, k: nat, dims0: seq<string>, parts0: map<string, seq<string>>)
    returns (dims: seq<string>, parts: map<string, seq<string>>)
    requires k < |es| && dims0 == Dims(es[..k])
    requires forall d :: d in parts0 <==> d in dims0
    requires forall d | d in parts0 :: parts0[d] == ValuesOf(es[..k], d)
    requires forall d | d !in parts0 :: ValuesOf(es[..k], d) == []
    ensures dims == Dims(es[..k + 1])
    ensures forall d :: d in parts <==> d in dims
    ensures forall d | d in parts :: parts[d] == ValuesOf(es[..k + 1], d)
    ensures forall d | d !in parts :: ValuesOf(es[..k + 1], d) == []
  {
    PrefixStep(es, k);
    dims, parts := dims0, parts0;
    var c := es[k];
    if c.Cut? && c.dimension != "" && c.value != One(SNull) {
      var dim, vals := c.dimension, EntryValues(c.value);
      var values: seq<string> := [];
      assert Accepted(c) && (dim in parts <==> dim in Dims(es[..k]));
      if dim !in parts {
        dims := dims + [dim];
      } else {
        values := parts[dim];
      }
      assert dims == Dims(es[..k + 1]);
      assert values == ValuesOf(es[..k], dim);
      values := AppendFormatted(values, dim, vals);
      parts := parts[dim := values];
      forall d | d in parts ensures parts[d] == ValuesOf(es[..k + 1], d) {
        if d != dim {
          assert !AcceptedWith(c, d);
        }
      }
      forall d | d !in parts ensures ValuesOf(es[..k + 1], d) == [] {
        assert !AcceptedWith(c, d);
      }
      assert forall d :: d in parts <==> d in dims;
    } else {
      assert !Accepted(c);
      assert dims == Dims(es[..k + 1]);
      assert forall d :: !AcceptedWith(c, d);
    }
  }

  /** The inner loop: each of `vals`, formatted for `dim`, appended to `values0`. */
  method AppendFormatted(values0: seq<string>, dim: string, vals: seq<Scalar>) returns (values: seq<string>)
    ensures values == values0 + FormattedList(dim, vals)
  {
    values := values0;
    for j := 0 to |vals|
      invariant values == values0 + FormattedList(dim, vals)[..j]
    {
      TakeOneMore(FormattedList(dim, vals), j);
      values := values + [FormatCutValue(vals[j], |vals| > 1, dim)];
    }
    assert FormattedList(dim, vals)[..|vals|] == FormattedList(dim, vals);
  }

  lemma {:induction false} TakeOneMore<T>(s: seq<T>, j: int)
    requires 0 <= j < |s|
    ensures s[..j + 1] == s[..j] + [s[j]]
  {
  }

  /** How `Dims` and `ValuesOf` grow by one entry. */
  lemma {:induction false} PrefixStep(es: seq<CutEntry>, k: int)
    requires 0 <= k < |es|
    ensures Dims(es[..k + 1]) ==
      if Accepted(es[k]) && es[k].dimension !in Dims(es[..k]) then Dims(es[..k]) + [es[k].dimension] else Dims(es[..k])
    ensures forall d | !AcceptedWith(es[k], d) :: ValuesOf(es[..k + 1], d) == ValuesOf(es[..k], d)
    ensures Accepted(es[k]) ==>
      ValuesOf(es[..k + 1], es[k].dimension)
      == ValuesOf(es[..k], es[k].dimension) + FormattedValues(es[k].dimension, es[k].value)
  {
    assert es[..k + 1][..k] == es[..k];
    forall d | !AcceptedWith(es[k], d) ensures ValuesOf(es[..k + 1], d) == ValuesOf(es[..k], d) {
      assert ValuesOf(es[..k], d) + [] == ValuesOf(es[..k], d);
    }
  }

  /** Every dimension has exactly one segment. */
  lemma {:induction false} DimsDistinct(es: seq<CutEntry>)
    ensures forall i, j | 0 <= i < j < |Dims(es)| :: Dims(es)[i] != Dims(es)[j]
  {
    if es != [] {
      DimsDistinct(es[..|es| - 1]);
    }
  }

  /** A dimension has a segment exactly when some accepted entry names it. */
  lemma {:induction false} DimsComplete(es: seq<CutEntry>, d: string)
    ensures d in Dims(es) <==> exists k | 0 <= k < |es| :: AcceptedWith(es[k], d)
  {
    if es != [] {
      var init := es[..|es| - 1];
      DimsComplete(init, d);
      if exists k | 0 <= k < |init| :: AcceptedWith(init[k], d) {
        var k :| 0 <= k < |init| && AcceptedWith(init[k], d);
        assert es[k] == init[k];
      }
      if exists k | 0 <= k < |es| :: AcceptedWith(es[k], d) {
        var k :| 0 <= k < |es| && AcceptedWith(es[k], d);
        if k < |init| {
          assert init[k] == es[k];
        }
      }
    }
  }

  /** A dimension without a segment contributes no values. */
  lemma {:induction false} ValuesOfAbsent(es: seq<CutEntry>, d: string)
    requires forall k | 0 <= k < |es| :: !AcceptedWith(es[k], d)
    ensures ValuesOf(es, d) == []
  {
    if es != [] {
      var init := es[..|es| - 1];
      forall k | 0 <= k < |init| ensures !AcceptedWith(init[k], d) {
        assert init[k] == es[k];
      }
      ValuesOfAbsent(init, d);
    }
  }

  /** What a single entry contributes to the values of `d`. */
  lemma {:induction false} ValuesOfSingle(c: CutEntry, d: string)
    ensures ValuesOf([c], d) == if AcceptedWith(c, d) then FormattedValues(d, c.value) else []
  {
    assert [c][..0] == [];
  }

  /** The position of the first accepted entry for `d`, or `|es|`. */
  function FirstAccepted(es: seq<CutEntry>, d: string): (k: nat)
    ensures k <= |es|
    ensures k < |es| ==> AcceptedWith(es[k], d)
    ensures forall j | 0 <= j < k :: !AcceptedWith(es[j], d)
  {
    if es == [] then 0 else if AcceptedWith(es[0], d) then 0 else 1 + FirstAccepted(es[1..], d)
  }

  lemma {:induction false} FirstAcceptedExtend(init: seq<CutEntry>, c: CutEntry, d: string)
    ensures FirstAccepted(init, d) < |init| ==> FirstAccepted(init + [c], d) == FirstAccepted(init, d)
    ensures FirstAccepted(init, d) == |init| && AcceptedWith(c, d) ==> FirstAccepted(init + [c], d) == |init|
  {
    var es := init + [c];
    var k0, k1 := FirstAccepted(init, d), FirstAccepted(es, d);
    if k0 < |init| {
      assert es[k0] == init[k0];
    } else if AcceptedWith(c, d) {
      assert es[|init|] == c;
    }
  }

  /** Segments come in the order in which their dimensions first appear among accepted entries. */
  lemma {:induction false} DimsFirstAppearanceOrder(es: seq<CutEntry>)
    ensures forall i | 0 <= i < |Dims(es)| :: FirstAccepted(es, Dims(es)[i]) < |es|
    ensures forall i, j | 0 <= i < j < |Dims(es)| :: FirstAccepted(es, Dims(es)[i]) < FirstAccepted(es, Dims(es)[j])
  {
    if es != [] {
      var init, c := es[..|es| - 1], es[|es| - 1];
      assert es == init + [c];
      DimsFirstAppearanceOrder(init);
      var d0 := Dims(init);
      forall i | 0 <= i < |d0| ensures FirstAccepted(es, d0[i]) == FirstAccepted(init, d0[i]) {
        FirstAcceptedExtend(init, c, d0[i]);
      }
      if Accepted(c) && c.dimension !in d0 {
        DimsComplete(init, c.dimension);
        FirstAcceptedExtend(init, c, c.dimension);
      }
    }
  }

  predicate IsPipe(c: char) { c == '|' }
  predicate IsColon(c: char) { c == ':' }
  predicate IsSemicolon(c: char) { c == ';' }

  /** Reads one `dim:v1;v2` segment back: the text before the first colon, and the values. */
  function ParseSegment(seg: string): (string, seq<string>) {
    var i := IndexOrEnd(seg, IsColon);
    if i == |seg| then (seg, []) else (seg[..i], Split(seg[i + 1..], IsSemicolon))
  }

  /** Reads a cut string back into its dimensions and values. */
  function ParseCut(s: string): seq<(string, seq<string>)> {
    var segs := Split(s, IsPipe);
    seq(|segs|, i requires 0 <= i < |segs| => ParseSegment(segs[i]))
  }

  /** No character of `s` is `|` or `;`. */
  predicate NoValueSeparator(s: string) {
    Avoids(s, IsPipe) && Avoids(s, IsSemicolon)
  }

  /**
   * The entries whose cut string reads back unambiguously: every accepted entry names a
   * dimension without `|` or `:` and contributes at least one value without `|` or `;`.
   */
  predicate Separable(es: seq<CutEntry>) {
    forall k | 0 <= k < |es| && Accepted(es[k]) ::
      Avoids(es[k].dimension, IsPipe) && Avoids(es[k].dimension, IsColon)
      && |EntryValues(es[k].value)| > 0
      && forall x | x in EntryValues(es[k].value) :: NoValueSeparator(PyStr(x))
  }

  /** Formatting adds nothing but double quotes. */
  lemma {:induction false} FormatKeepsSafe(x: Scalar, alwaysQuote: bool, dim: string)
    requires NoValueSeparator(PyStr(x))
    ensures NoValueSeparator(FormatCutValue(x, alwaysQuote, dim))
  {
    var s := PyStr(x);
    var t := Trim(s, IsDoubleQuote);
    var v := CutText(x);
    assert forall c | c in v :: c in t;
    assert forall c | c in t :: c in s;
    assert NoValueSeparator(v);
    QuoteKeepsSafe(v);
    var r := FormatCutValue(x, alwaysQuote, dim);
    assert r == v || r == Quote(v);
  }

  lemma {:induction false} QuoteKeepsSafe(v: string)
    requires NoValueSeparator(v)
    ensures NoValueSeparator(Quote(v))
  {
    assert forall c | c in Quote(v) :: c == '"' || c in v;
  }

  lemma {:induction false} FormattedSafe(dim: string, vals: seq<Scalar>)
    requires forall x | x in vals :: NoValueSeparator(PyStr(x))
    ensures forall v | v in FormattedList(dim, vals) :: NoValueSeparator(v)
  {
    forall i | 0 <= i < |vals| ensures NoValueSeparator(FormatCutValue(vals[i], |vals| > 1, dim)) {
      assert vals[i] in vals;
      FormatKeepsSafe(vals[i], |vals| > 1, dim);
    }
  }

  /** Under `Separable`, each dimension's values are non-empty and free of `|` and `;`. */
  lemma {:induction false} SeparableValues(es: seq<CutEntry>, d: string)
    requires Separable(es)
    ensures d in Dims(es) ==> ValuesOf(es, d) != []
    ensures forall v | v in ValuesOf(es, d) :: NoValueSeparator(v)
  {
    if es != [] {
      var init, c := es[..|es| - 1], es[|es| - 1];
      assert Separable(init) by {
        forall k | 0 <= k < |init| ensures init[k] == es[k] { }
      }
      SeparableValues(init, d);
      if AcceptedWith(c, d) {
        FormattedSafe(d, EntryValues(c.value));
      }
    }
  }

  /** Under `Separable`, no dimension with a segment holds `|` or `:`. */
  lemma {:induction false} SeparableDims(es: seq<CutEntry>, d: string)
    requires Separable(es) && d in Dims(es)
    ensures Avoids(d, IsPipe) && Avoids(d, IsColon)
  {
    DimsComplete(es, d);
  }

  lemma {:induction false} ParseSegmentOf(d: string, vs: seq<string>)
    requires Avoids(d, IsColon)
    requires vs != []
    requires forall v | v in vs :: Avoids(v, IsSemicolon)
    ensures ParseSegment(d + ":" + Join(";", vs)) == (d, vs)
  {
    var j := Join(";", vs);
    assert ":" == [':'];
    SplitAtSeparator(d, ':', j, IsColon);
    assert forall k | 0 <= k < |vs| :: vs[k] in vs;
    assert ";" == [';'];
    SplitJoin(';', IsSemicolon, vs);
  }

  /**
   * The cut string reads back as one (dimension, values) pair per distinct dimension, in order,
   * with the values of all its entries, whenever no name or value holds a separator.
   */
  lemma {:induction false} CutStringRoundTrip(es: seq<CutEntry>)
    requires Separable(es)
    requires Dims(es) != []
    ensures ParseCut(CutString(es))
      == seq(|Dims(es)|, i requires 0 <= i < |Dims(es)| => (Dims(es)[i], ValuesOf(es, Dims(es)[i])))
  {
    var ds, segs := Dims(es), Segments(es);
    forall i | 0 <= i < |ds|
      ensures Avoids(segs[i], IsPipe) && ParseSegment(segs[i]) == (ds[i], ValuesOf(es, ds[i]))
    {
      var d, vs := ds[i], ValuesOf(es, ds[i]);
      SeparableDims(es, d);
      SeparableValues(es, d);
      JoinAvoids(";", vs, IsPipe);
      ParseSegmentOf(d, vs);
    }
    assert "|" == ['|'];
    SplitJoin('|', IsPipe, segs);
  }

  /** Text whose ends are neither kind of quote, so stripping quotes leaves it alone. */
  predicate PlainEnds(v: string) {
    v == [] || (v[0] != '"' && v[|v| - 1] != '"' && v[0] != '\'' && v[|v| - 1] != '\'')
  }

  lemma {:induction false} TrimQuoted(v: string)
    requires v == [] || (v[0] != '"' && v[|v| - 1] != '"')
    ensures Trim(Quote(v), IsDoubleQuote) == v
  {
    var q := Quote(v);
    assert q[1..] == v + ['"'];
    if v == [] {
      assert TrimStart(q, IsDoubleQuote) == TrimStart(['"'], IsDoubleQuote);
      assert ['"'][1..] == [];
    } else {
      assert TrimStart(q, IsDoubleQuote) == v + ['"'];
      assert (v + ['"'])[..|v|] == v;
      assert TrimEnd(v + ['"'], IsDoubleQuote) == TrimEnd(v, IsDoubleQuote);
      assert TrimEnd(v, IsDoubleQuote) == v;
    }
  }

  /** A value with plain ends is its own cut text. */
  lemma {:induction false} PlainText(v: string)
    requires PlainEnds(v)
    ensures CutText(SStr(v)) == v
  {
    assert PyStr(SStr(v)) == v;
    var t := Trim(v, IsDoubleQuote);
    assert t == v;
  }

  /** Quoting a value with plain ends is undone by the stripping. */
  lemma {:induction false} QuotedText(v: string)
    requires PlainEnds(v)
    ensures CutText(SStr(Quote(v))) == v
  {
    assert PyStr(SStr(Quote(v))) == Quote(v);
    TrimQuoted(v);
    var t := Trim(v, IsSingleQuote);
    assert t == v;
  }

  /**
   * Formatting an already formatted value again changes nothing, provided the stripped text
   * does not itself begin or end with a double quote.
   */
  lemma {:induction false} FormatIdempotent(x: Scalar, alwaysQuote: bool, dim: string)
    requires var v := CutText(x); v == [] || (v[0] != '"' && v[|v| - 1] != '"')
    ensures var r := FormatCutValue(x, alwaysQuote, dim);
      FormatCutValue(SStr(r), alwaysQuote, dim) == r
  {
    var v := CutText(x);
    assert PlainEnds(v);
    var r := FormatCutValue(x, alwaysQuote, dim);
    if r == v {
      PlainText(v);
    } else {
      assert r == Quote(v);
      QuotedText(v);
    }
    SameTextSameFormat(SStr(r), x, alwaysQuote, dim);
  }

  lemma {:induction false} SameTextSameFormat(x: Scalar, y: Scalar, alwaysQuote: bool, dim: string)
    requires CutText(x) == CutText(y)
    ensures FormatCutValue(x, alwaysQuote, dim) == FormatCutValue(y, alwaysQuote, dim)
  {
  }

  /** A single string value holding no `;` or `,` is one value, formatted on its own. */
  lemma {:induction false} SingleValue(dim: string, v: string)
    requires ';' !in v && ',' !in v
    ensures FormattedValues(dim, One(SStr(v))) == [FormatCutValue(SStr(v), false, dim)]
  {
    assert EntryValues(One(SStr(v))) == [SStr(v)];
  }

  /** The cut string of one accepted entry: its dimension and its formatted values. */
  lemma {:induction false} SingleEntryCut(c: CutEntry)
    requires Accepted(c)
    ensures CutString([c]) == c.dimension + ":" + Join(";", FormattedValues(c.dimension, c.value))
  {
    assert [c][..0] == [];
    ValuesOfSingle(c, c.dimension);
    assert Dims([c]) == [c.dimension];
    assert Segments([c]) == [Segment([c], c.dimension)];
  }

  /** The grouping of two accepted entries for different dimensions. */
  lemma {:induction false} TwoEntryGrouping(c1: CutEntry, c2: CutEntry)
    requires Accepted(c1) && Accepted(c2) && c1.dimension != c2.dimension
    ensures Dims([c1, c2]) == [c1.dimension, c2.dimension]
    ensures ValuesOf([c1, c2], c1.dimension) == FormattedValues(c1.dimension, c1.value)
    ensures ValuesOf([c1, c2], c2.dimension) == FormattedValues(c2.dimension, c2.value)
  {
    var es := [c1, c2];
    assert es[..1] == [c1] && [c1][..0] == [];
    assert Dims([c1]) == [c1.dimension];
    assert c2.dimension !in Dims([c1]);
    ValuesOfSingle(c1, c1.dimension);
    ValuesOfSingle(c1, c2.dimension);
  }

  /** The cut string of two accepted entries for different dimensions: two segments. */
  lemma {:induction false} TwoEntryCut(c1: CutEntry, c2: CutEntry)
    requires Accepted(c1) && Accepted(c2) && c1.dimension != c2.dimension
    ensures CutString([c1, c2])
      == c1.dimension + ":" + Join(";", FormattedValues(c1.dimension, c1.value)) + "|"
         + (c2.dimension + ":" + Join(";", FormattedValues(c2.dimension, c2.value)))
  {
    var es := [c1, c2];
    TwoEntryGrouping(c1, c2);
    var segs := Segments(es);
    assert segs == [Segment(es, c1.dimension), Segment(es, c2.dimension)];
    JoinPair("|", segs[0], segs[1]);
  }

  lemma {:induction false} JoinPair(sep: string, p: string, q: string)
    ensures Join(sep, [p, q]) == p + sep + q
  {
    assert [p, q][1..] == [q];
  }

  /** A year cut stays bare and an item-code cut is quoted, in the order given. */
  lemma {:induction false} YearBareItemQuoted(y: string, c: string)
    requires PlainEnds(y) && ';' !in y && ',' !in y
    requires PlainEnds(c) && ';' !in c && ',' !in c
    ensures CutString([Cut(YearDim, One(SStr(y))), Cut(ItemCodeDim, One(SStr(c)))])
      == YearDim + ":" + y + "|" + (ItemCodeDim + ":" + Quote(c))
  {
    assert YearDim != ItemCodeDim by { assert YearDim[0] != ItemCodeDim[0]; }
    TwoEntryCut(Cut(YearDim, One(SStr(y))), Cut(ItemCodeDim, One(SStr(c))));
    SingleValue(YearDim, y);
    BareYear(y);
    SingleValue(ItemCodeDim, c);
    QuotedCode(c);
  }

  lemma {:induction false} BareYear(y: string)
    requires PlainEnds(y)
    ensures FormatCutValue(SStr(y), false, YearDim) == y
  {
    PlainText(y);
  }

  lemma {:induction false} QuotedCode(c: string)
    requires PlainEnds(c)
    ensures FormatCutValue(SStr(c), false, ItemCodeDim) == Quote(c)
  {
    PlainText(c);
  }

  /**
   * Two values for one dimension other than the year are both quoted, even when they are all
   * digits, and joined with `;`.
   */
  lemma {:induction false} TwoValuesQuoted(d: string, a: string, b: string)
    requires d != "" && d != YearDim
    requires PlainEnds(a) && PlainEnds(b)
    ensures CutString([Cut(d, Many([SStr(a), SStr(b)]))]) == d + ":" + (Quote(a) + ";" + Quote(b))
  {
    SingleEntryCut(Cut(d, Many([SStr(a), SStr(b)])));
    TwoValuesFormatted(d, a, b);
    JoinPair(";", Quote(a), Quote(b));
  }

  lemma {:induction false} TwoValuesFormatted(d: string, a: string, b: string)
    requires d != YearDim
    requires PlainEnds(a) && PlainEnds(b)
    ensures FormattedValues(d, Many([SStr(a), SStr(b)])) == [Quote(a), Quote(b)]
  {
    assert EntryValues(Many([SStr(a), SStr(b)])) == [SStr(a), SStr(b)];
    FormattedPair(d, SStr(a), SStr(b));
    ForcedQuote(d, a);
    ForcedQuote(d, b);
  }

  lemma {:induction false} FormattedPair(d: string, x: Scalar, y: Scalar)
    ensures FormattedList(d, [x, y]) == [FormatCutValue(x, true, d), FormatCutValue(y, true, d)]
  {
  }

  /** A forced quote on a value with plain ends, for any dimension but the year. */
  lemma {:induction false} ForcedQuote(d: string, a: string)
    requires d != YearDim && PlainEnds(a)
    ensures FormatCutValue(SStr(a), true, d) == Quote(a)
  {
    PlainText(a);
  }
}
