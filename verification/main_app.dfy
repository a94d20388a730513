/**
 * The form-driven handler of the main application: it reads the query arguments, builds the cut
 * for the `incexp` aggregate request, and post-processes the answer's cells by naming the
 * municipality and sorting by amount, largest first.
 */
module MainApp {
  import opened Text
  import opened Wrappers
  import opened IntentModel
  import opened DirectQuery
  import CutParam


  /**
   * The cut segments of the request: year, amount type and quoted municipality, then the period
   * when it is truthy, then the quoted item codes when there are any.
   */
  function CutSegments(municipality: Option<string>, year: int, amountType: Option<string>,
                       period: Scalar, itemCodes: Option<seq<string>>): seq<(string, seq<string>)>
  {
    [(YearDim, [IntText(year)]), (AmountTypeDim, [Show(amountType)]),
     (DemarcationDim, [CutParam.Quote(Show(municipality))])]
    + (if Truthy(period) then [(PeriodDim, [PyStr(period)])] else [])
    + (if itemCodes.Some? && itemCodes.value != [] then [(ItemCodeDim, QuotedAll(itemCodes.value))] else [])
  }

  method GetMunicipalityIncexp(municipality: Option<string>, year: int, amountType: Option<string>,
                               period: Scalar, itemCodes: Option<seq<string>>)
    returns (params: seq<(string, string)>)
    ensures params == DirectParams(JoinSegments(CutSegments(municipality, year, amountType, period, itemCodes)))
  {
    ghost var segs := [(YearDim, [IntText(year)]), (AmountTypeDim, [Show(amountType)]),
                       (DemarcationDim, [CutParam.Quote(Show(municipality))])];
    var cutFilters := [
      YearDim + ":" + IntText(year),
      AmountTypeDim + ":" + Show(amountType),
      DemarcationDim + ":" + CutParam.Quote(Show(municipality))
    ];
    assert cutFilters == seq(|segs|, i requires 0 <= i < |segs| => SegmentText(segs[i].0, segs[i].1));
    if Truthy(period) {
      cutFilters := cutFilters + [PeriodDim + ":" + PyStr(period)];
      segs := segs + [(PeriodDim, [PyStr(period)])];
    }
    assert cutFilters == seq(|segs|, i requires 0 <= i < |segs| => SegmentText(segs[i].0, segs[i].1));
    if itemCodes.Some? && itemCodes.value != [] {
      var itemFilter := Join(";", QuotedAll(itemCodes.value));
      cutFilters := cutFilters + [ItemCodeDim + ":" + itemFilter];
      segs := segs + [(ItemCodeDim, QuotedAll(itemCodes.value))];
    }
    assert cutFilters == seq(|segs|, i requires 0 <= i < |segs| => SegmentText(segs[i].0, segs[i].1));
    assert segs == CutSegments(municipality, year, amountType, period, itemCodes);
    params := [("drilldown", DirectDrilldown), ("cut", Join("|", cutFilters)),
               ("aggregates", "amount.sum"), ("pagesize", "10000")];
  }

  /** The arguments from which the cut reads back unambiguously. */
  predicate PlainArguments(municipality: Option<string>, amountType: Option<string>, period: Scalar,
                           itemCodes: Option<seq<string>>)
  {
    && CutParam.NoValueSeparator(Show(municipality)) && CutParam.NoValueSeparator(Show(amountType))
    && CutParam.NoValueSeparator(PyStr(period))
    && (itemCodes.Some? ==> forall c | c in itemCodes.value :: CutParam.NoValueSeparator(c))
  }

  /** Every segment of the cut has a plain dimension and at least one value free of separators. */
  lemma {:induction false} SegmentsReadable(municipality: Option<string>, year: int, amountType: Option<string>,
                                            period: Scalar, itemCodes: Option<seq<string>>)
    requires PlainArguments(municipality, amountType, period, itemCodes)
    ensures Readable(CutSegments(municipality, year, amountType, period, itemCodes))
  {
    DimensionsPlain();
    IntTextPlain(year);
    CutParam.QuoteKeepsSafe(Show(municipality));
    var fixed := [(YearDim, [IntText(year)]), (AmountTypeDim, [Show(amountType)]),
                  (DemarcationDim, [CutParam.Quote(Show(municipality))])];
    var periodSeg := if Truthy(period) then [(PeriodDim, [PyStr(period)])] else [];
    var itemSeg := if itemCodes.Some? && itemCodes.value != [] then [(ItemCodeDim, QuotedAll(itemCodes.value))] else [];
    assert Readable(fixed);
    assert Readable(periodSeg);
    if itemCodes.Some? {
      QuotedAllReadable(itemCodes.value);
    }
    assert Readable(itemSeg);
    ReadableConcat(fixed, periodSeg);
    ReadableConcat(fixed + periodSeg, itemSeg);
  }

  /**
   * The cut reads back as year, amount type and quoted municipality, then the period exactly when
   * it is truthy, then one segment with every item code quoted exactly when there are codes.
   */
  lemma {:induction false} CutReadsBack(municipality: Option<string>, year: int, amountType: Option<string>,
                                        period: Scalar, itemCodes: Option<seq<string>>)
    requires PlainArguments(municipality, amountType, period, itemCodes)
    ensures var segs := CutParam.ParseCut(JoinSegments(CutSegments(municipality, year, amountType, period, itemCodes)));
      var withCodes := itemCodes.Some? && itemCodes.value != [];
      && |segs| == 3 + (if Truthy(period) then 1 else 0) + (if withCodes then 1 else 0)
      && segs[0] == (YearDim, [IntText(year)])
      && segs[1] == (AmountTypeDim, [Show(amountType)])
      && segs[2] == (DemarcationDim, [CutParam.Quote(Show(municipality))])
      && (Truthy(period) ==> segs[3] == (PeriodDim, [PyStr(period)]))
      && (withCodes ==> segs[|segs| - 1] == (ItemCodeDim, QuotedAll(itemCodes.value)))
  {
    var segs := CutSegments(municipality, year, amountType, period, itemCodes);
    assert CutParam.ParseCut(JoinSegments(segs)) == segs by {
      SegmentsReadable(municipality, year, amountType, period, itemCodes);
      JoinSegmentsRoundTrip(segs);
    }
    CutSegmentsShape(municipality, year, amountType, period, itemCodes);
  }

  lemma {:induction false} CutSegmentsShape(municipality: Option<string>, year: int, amountType: Option<string>,
                                            period: Scalar, itemCodes: Option<seq<string>>)
    ensures var segs := CutSegments(municipality, year, amountType, period, itemCodes);
      var withCodes := itemCodes.Some? && itemCodes.value != [];
      && |segs| == 3 + (if Truthy(period) then 1 else 0) + (if withCodes then 1 else 0)
      && segs[0] == (YearDim, [IntText(year)])
      && segs[1] == (AmountTypeDim, [Show(amountType)])
      && segs[2] == (DemarcationDim, [CutParam.Quote(Show(municipality))])
      && (Truthy(period) ==> segs[3] == (PeriodDim, [PyStr(period)]))
      && (withCodes ==> segs[|segs| - 1] == (ItemCodeDim, QuotedAll(itemCodes.value)))
  {
  }

  /** The decimal text of an integer holds no separator. */
  lemma {:induction false} IntTextPlain(i: int)
    ensures CutParam.NoValueSeparator(IntText(i))
  {
    var d := Decimal(if i < 0 then -i else i);
    assert forall k | 0 <= k < |d| :: IsDigit(d[k]);
    assert forall c | c in d :: IsDigit(c);
  }

  predicate IsQuoteChar(c: char) { c == '"' || c == '\'' }

  /**
   * The `item_codes` argument: split on commas, each piece stripped of whitespace and then of
   * quotes; blank or missing gives `None`.
   */
  function ParseItemCodes(arg: Option<string>): (r: Option<seq<string>>)
    ensures r.None? <==> Strip(Show(arg)) == "" || arg.None?
    ensures r.Some? ==> |r.value| >= 1
    ensures r.Some? ==> forall c | c in r.value :: Avoids(c, IsComma)
  {
    var text := if arg.None? then "" else Strip(arg.value);
    if text == "" then None
    else
      var parts := Split(text, IsComma);
      assert forall k | 0 <= k < |parts| :: Avoids(parts[k], IsComma);
      Some(StripPieces(parts))
  }

  /** `code.strip().strip('"\'')` for each piece. */
  function StripPieces(parts: seq<string>): (r: seq<string>)
    ensures |r| == |parts|
    ensures forall k | 0 <= k < |parts| :: forall c | c in r[k] :: c in parts[k]
  {
    seq(|parts|, i requires 0 <= i < |parts| => Trim(Strip(parts[i]), IsQuoteChar))
  }

  /** A code that survives the round trip: non-empty, no comma, quote or whitespace in it. */
  predicate CleanCode(c: string) {
    c != "" && Avoids(c, IsComma) && Avoids(c, IsQuoteChar) && Avoids(c, IsSpace)
  }

  /** Text free of the stripped characters is left alone by a strip. */
  lemma {:induction false} TrimNothing(s: string, drop: char -> bool)
    requires Avoids(s, drop)
    ensures Trim(s, drop) == s
  {
    if s != [] {
      assert s[0] in s && s[|s| - 1] in s;
    }
  }

  /** The comma-joined clean codes are non-empty and have no surrounding whitespace. */
  lemma {:induction false} CleanJoinStrips(codes: seq<string>)
    requires codes != [] && forall c | c in codes :: CleanCode(c)
    ensures var text := Join(",", codes); text != "" && Strip(text) == text
  {
    var text := Join(",", codes);
    assert Avoids(",", IsSpace);
    JoinAvoids(",", codes, IsSpace);
    TrimNothing(text, IsSpace);
    assert codes[0] in codes;
    if |codes| > 1 {
      assert |text| >= |codes[0]|;
    }
  }

  /** Clean codes are left alone by the per-piece stripping. */
  lemma {:induction false} StripPiecesClean(codes: seq<string>)
    requires forall c | c in codes :: CleanCode(c)
    ensures StripPieces(codes) == codes
  {
    forall k | 0 <= k < |codes| ensures StripPieces(codes)[k] == codes[k] {
      assert codes[k] in codes;
      TrimNothing(codes[k], IsSpace);
      TrimNothing(codes[k], IsQuoteChar);
    }
  }

  /** Joining clean codes with commas and parsing the text gives the codes back. */
  lemma {:induction false} ParseItemCodesRoundTrip(codes: seq<string>)
    requires codes != [] && forall c | c in codes :: CleanCode(c)
    ensures ParseItemCodes(Some(Join(",", codes))) == Some(codes)
  {
    CleanJoinStrips(codes);
    forall k | 0 <= k < |codes| ensures Avoids(codes[k], IsComma) {
      assert codes[k] in codes;
    }
    assert "," == [','];
    SplitJoin(',', IsComma, codes);
    StripPiecesClean(codes);
  }

  /** `financial_period or year`. */
  function PeriodOrYear(period: Option<string>, year: int): Scalar {
    if period.Some? && period.value != "" then SStr(period.value) else SInt(year)
  }

  /** The handler's request: the item codes parsed, the period defaulted to the year. */
  method MunicipalityDataParams(municipality: Option<string>, year: int, amountType: Option<string>,
                                period: Option<string>, itemCodesArg: Option<string>)
    returns (params: seq<(string, string)>)
    ensures params == DirectParams(JoinSegments(CutSegments(municipality, year, amountType,
                                                       PeriodOrYear(period, year), ParseItemCodes(itemCodesArg))))
  {
    var itemCodes := ParseItemCodes(itemCodesArg);
    params := GetMunicipalityIncexp(municipality, year, amountType, PeriodOrYear(period, year), itemCodes);
  }

  /** The period segment is there unless the period is missing or empty and the year is 0. */
  lemma {:induction false} PeriodDefaultsToYear(period: Option<string>, year: int)
    ensures Truthy(PeriodOrYear(period, year)) <==> (period.Some? && period.value != "") || year != 0
    ensures (period.None? || period.value == "") ==> PyStr(PeriodOrYear(period, year)) == IntText(year)
  {
  }

  /** `x.get('amount.sum', 0) or 0`: the sort key of a cell with a numeric or null amount. */
  function Key(c: Cell): real {
    if AmountField in c && c[AmountField].Num? then c[AmountField].r else 0.0
  }

  /** No amount is a non-empty string: formatting one as a number raises before the sort is reached. */
  predicate NumericAmounts(cells: seq<Cell>) {
    forall i | 0 <= i < |cells| :: AmountField in cells[i] && cells[i][AmountField].Str? ==> cells[i][AmountField].s == ""
  }

  /** `x` placed after every element whose key is at least its own. */
  function Insert(s: seq<Cell>, x: Cell): (r: seq<Cell>)
    ensures |r| == |s| + 1
  {
    if s == [] || Key(s[|s| - 1]) >= Key(x) then s + [x]
    else Insert(s[..|s| - 1], x) + [s[|s| - 1]]
  }

  /** `list.sort(key=Key, reverse=True)`: a stable sort, largest key first. */
  function SortedByAmount(s: seq<Cell>): (r: seq<Cell>)
    ensures |r| == |s|
  {
    if s == [] then [] else Insert(SortedByAmount(s[..|s| - 1]), s[|s| - 1])
  }

  predicate Descending(s: seq<Cell>) {
    forall i, j | 0 <= i < j < |s| :: Key(s[i]) >= Key(s[j])
  }

  /** The elements of `s` whose key is `k`, in order. */
  function WithKey(s: seq<Cell>, k: real): seq<Cell> {
    if s == [] then [] else WithKey(s[..|s| - 1], k) + (if Key(s[|s| - 1]) == k then [s[|s| - 1]] else [])
  }

  /** The in-place sort of the answer's cells. */
  method SortByAmount(a: array<Cell>)
    modifies a
    ensures a[..] == SortedByAmount(old(a[..]))
  {
    ghost var s := a[..];
    for i := 0 to a.Length
      invariant a[..i] == SortedByAmount(s[..i])
      invariant a[i..] == s[i..]
    {
      assert s[..i + 1][..i] == s[..i];
      InsertAt(a, i);
    }
    assert s[..a.Length] == s;
  }

  /** Shifts the elements of `a[..i]` with a smaller key one place right and drops `a[i]` in the gap. */
  method InsertAt(a: array<Cell>, i: nat)
    requires i < a.Length
    modifies a
    ensures a[..i + 1] == Insert(old(a[..i]), old(a[i]))
    ensures a[i + 1..] == old(a[i + 1..])
  {
    ghost var before := a[..];
    ghost var pre := a[..i];
    var x := a[i];
    var j := ShiftSmaller(a, i, x);
    ghost var shifted := a[..];
    a[j] := x;
    assert a[..i + 1] == Insert(pre, x) by {
      InsertPlace(pre, x, j);
      ShiftedShape(a[..], pre, x, j);
    }
    assert a[i + 1..] == before[i + 1..] by {
      assert forall k | i < k < a.Length :: a[k] == shifted[k] == before[k];
      SameFrom(a[..], before, i + 1);
    }
  }

  /**
   * The shifting loop: moves each element before `i` whose key is smaller than `x`'s one place
   * right, stopping at the first that is not, and returns the gap.
   */
  method ShiftSmaller(a: array<Cell>, i: nat, x: Cell) returns (j: nat)
    requires i < a.Length
    modifies a
    ensures j <= i
    ensures forall k | 0 <= k < j :: a[k] == old(a[k])
    ensures forall k | j < k <= i :: a[k] == old(a[k - 1])
    ensures forall k | i < k < a.Length :: a[k] == old(a[k])
    ensures forall k | j <= k < i :: Key(old(a[k])) < Key(x)
    ensures j == 0 || Key(old(a[j - 1])) >= Key(x)
  {
    j := i;
    while j > 0 && Key(a[j - 1]) < Key(x)
      invariant 0 <= j <= i
      invariant forall k | 0 <= k < j :: a[k] == old(a[k])
      invariant forall k | j < k <= i :: a[k] == old(a[k - 1])
      invariant forall k | i < k < a.Length :: a[k] == old(a[k])
      invariant forall k | j <= k < i :: Key(old(a[k])) < Key(x)
    {
      a[j] := a[j - 1];
      j := j - 1;
    }
  }

  lemma {:induction false} SameFrom(b: seq<Cell>, c: seq<Cell>, n: nat)
    requires |b| == |c| && n <= |b|
    requires forall k | n <= k < |b| :: b[k] == c[k]
    ensures b[n..] == c[n..]
  {
  }

  /** The array after the loop: the prefix before `j`, then `x`, then the rest shifted right. */
  lemma {:induction false} ShiftedShape(b: seq<Cell>, pre: seq<Cell>, x: Cell, j: nat)
    requires j <= |pre| < |b| && b[j] == x
    requires forall k | 0 <= k < j :: b[k] == pre[k]
    requires forall k | j < k <= |pre| :: b[k] == pre[k - 1]
    ensures b[..|pre| + 1] == pre[..j] + [x] + pre[j..]
  {
  }

  /**
   * `x` goes in after the last element whose key is at least its own, once every later element
   * has a smaller key.
   */
  lemma {:induction false} InsertPlace(s: seq<Cell>, x: Cell, j: nat)
    requires j <= |s|
    requires j == 0 || Key(s[j - 1]) >= Key(x)
    requires forall k | j <= k < |s| :: Key(s[k]) < Key(x)
    ensures Insert(s, x) == s[..j] + [x] + s[j..]
  {
    if j < |s| {
      var init := s[..|s| - 1];
      InsertPlace(init, x, j);
      assert init[..j] == s[..j];
      assert s[j..] == init[j..] + [s[|s| - 1]];
    } else {
      assert s[..j] == s && s[j..] == [];
    }
  }

  /** Inserting into a descending sequence keeps it descending. */
  lemma {:induction false} InsertDescending(s: seq<Cell>, x: Cell)
    requires Descending(s)
    ensures Descending(Insert(s, x))
  {
    if s != [] && Key(s[|s| - 1]) < Key(x) {
      var init := s[..|s| - 1];
      var last := s[|s| - 1];
      assert Descending(init);
      InsertDescending(init, x);
      InsertBounds(init, x, Key(last));
      DescendingAppend(Insert(init, x), last);
    }
  }

  lemma {:induction false} DescendingAppend(s: seq<Cell>, x: Cell)
    requires Descending(s)
    requires forall i | 0 <= i < |s| :: Key(s[i]) >= Key(x)
    ensures Descending(s + [x])
  {
  }

  /** Inserting adds exactly the one element. */
  lemma {:induction false} InsertPermutes(s: seq<Cell>, x: Cell)
    ensures multiset(Insert(s, x)) == multiset(s) + multiset{x}
  {
    if s != [] && Key(s[|s| - 1]) < Key(x) {
      var init := s[..|s| - 1];
      InsertPermutes(init, x);
      assert s == init + [s[|s| - 1]];
    }
  }

  /** Every element of `Insert(s, x)` has a key at least `b` when `x` and all of `s` do. */
  lemma {:induction false} InsertBounds(s: seq<Cell>, x: Cell, b: real)
    requires forall i | 0 <= i < |s| :: Key(s[i]) >= b
    requires Key(x) >= b
    ensures forall i | 0 <= i < |Insert(s, x)| :: Key(Insert(s, x)[i]) >= b
  {
    if s != [] && Key(s[|s| - 1]) < Key(x) {
      InsertBounds(s[..|s| - 1], x, b);
    }
  }

  /** The sorted cells are in descending order of amount and are the same cells. */
  lemma {:induction false} SortedByAmountIsSortedPermutation(s: seq<Cell>)
    ensures Descending(SortedByAmount(s))
    ensures multiset(SortedByAmount(s)) == multiset(s)
  {
    if s != [] {
      var init := s[..|s| - 1];
      SortedByAmountIsSortedPermutation(init);
      InsertDescending(SortedByAmount(init), s[|s| - 1]);
      InsertPermutes(SortedByAmount(init), s[|s| - 1]);
      assert s == init + [s[|s| - 1]];
    }
  }

  lemma {:induction false} WithKeyAppend(s: seq<Cell>, x: Cell, k: real)
    ensures WithKey(s + [x], k) == WithKey(s, k) + (if Key(x) == k then [x] else [])
  {
    assert (s + [x])[..|s|] == s;
  }

  /** Inserting `x` puts it after every element of its own key. */
  lemma {:induction false} InsertStable(s: seq<Cell>, x: Cell, k: real)
    ensures WithKey(Insert(s, x), k) == WithKey(s, k) + (if Key(x) == k then [x] else [])
  {
    if s == [] || Key(s[|s| - 1]) >= Key(x) {
      WithKeyAppend(s, x, k);
    } else {
      var init := s[..|s| - 1];
      InsertStable(init, x, k);
      PassedOver(init, s[|s| - 1], x, k);
      assert s == init + [s[|s| - 1]];
    }
  }

  /** An element `x` moves in front of has a smaller key, so the two never share key `k`. */
  lemma {:induction false} PassedOver(init: seq<Cell>, last: Cell, x: Cell, k: real)
    requires Key(last) < Key(x)
    requires WithKey(Insert(init, x), k) == WithKey(init, k) + (if Key(x) == k then [x] else [])
    ensures WithKey(Insert(init, x) + [last], k) == WithKey(init + [last], k) + (if Key(x) == k then [x] else [])
  {
    WithKeyAppend(Insert(init, x), last, k);
    WithKeyAppend(init, last, k);
  }

  /** Cells with equal amounts keep their original relative order. */
  lemma {:induction false} SortedByAmountIsStable(s: seq<Cell>, k: real)
    ensures WithKey(SortedByAmount(s), k) == WithKey(s, k)
  {
    if s != [] {
      var init := s[..|s| - 1];
      SortedByAmountIsStable(init, k);
      InsertStable(SortedByAmount(init), s[|s| - 1], k);
      assert s == init + [s[|s| - 1]];
      WithKeyAppend(init, s[|s| - 1], k);
    }
  }

  /** One cell after the loop body: named, and given a formatted amount when its amount is truthy. */
  function Annotated(c: Cell, name: Value, format: real -> string): Cell {
    var named := c[NameField := name];
    if AmountField in c && c[AmountField].Num? && c[AmountField].r != 0.0
    then named[FormattedField := Str(format(c[AmountField].r))]
    else named
  }

  function AnnotatedAll(s: seq<Cell>, name: Value, format: real -> string): (r: seq<Cell>)
    ensures |r| == |s|
  {
    seq(|s|, i requires 0 <= i < |s| => Annotated(s[i], name, format))
  }

  /**
   * The post-processing of the answer's cells: each is named after the municipality (and its
   * amount formatted by `format`, which stands for the float formatting), then all are sorted.
   */
  method ProcessCells(cells: array<Cell>, municipality: Option<string>, format: real -> string)
    requires NumericAmounts(cells[..])
    modifies cells
    ensures cells[..] == SortedByAmount(AnnotatedAll(old(cells[..]), NameValue(municipality), format))
  {
    ghost var s := cells[..];
    for i := 0 to cells.Length
      invariant forall k | 0 <= k < i :: cells[k] == Annotated(s[k], NameValue(municipality), format)
      invariant cells[i..] == s[i..]
    {
      cells[i] := Annotated(cells[i], NameValue(municipality), format);
      assert cells[i + 1..] == s[i + 1..] by {
        assert forall k | i + 1 <= k < cells.Length :: cells[k] == s[k];
      }
    }
    assert cells[..] == AnnotatedAll(s, NameValue(municipality), format);
    SortByAmount(cells);
  }

  /** Annotation names every cell and changes no field other than the name and the formatted amount. */
  lemma {:induction false} AnnotatedFields(c: Cell, name: Value, format: real -> string)
    ensures var a := Annotated(c, name, format);
      && a[NameField] == name
      && (forall f | f != NameField && f != FormattedField :: (f in a <==> f in c) && (f in c ==> a[f] == c[f]))
      && (FormattedField in a <==> FormattedField in c || (AmountField in c && c[AmountField].Num? && c[AmountField].r != 0.0))
      && Key(a) == Key(c)
  {
  }
}
