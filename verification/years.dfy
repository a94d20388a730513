/**
 * The year extractor run on the user's request. Three regular-expression scans collect years:
 * hyphenated ranges `\b20dd-20dd\b`, worded ranges `(between|from) 20dd (and|to) 20dd` in any
 * letter case, and standalone years `\b20dd\b`. Ranges are expanded inclusively, and the result
 * is the distinct years in ascending order, as decimal strings.
 *
 * Each `re.findall` is a scanner function that walks the text left to right and, after a match,
 * resumes at the match's end, as `findall` does for non-overlapping matches.
 */
module YearExtractor {
  import opened Text
  import opened Wrappers

  predicate InCentury(y: int) { 2000 <= y <= 2099 }

  /** `20\d{2}` at position `i`, with the year it denotes. */
  function YearAt(s: string, i: nat): (r: Option<int>)
    ensures r.Some? ==> i + 4 <= |s| && InCentury(r.value)
    ensures r.Some? <==> i + 4 <= |s| && s[i] == '2' && s[i + 1] == '0' && IsDigit(s[i + 2]) && IsDigit(s[i + 3])
  {
    if i + 4 <= |s| && s[i] == '2' && s[i + 1] == '0' && IsDigit(s[i + 2]) && IsDigit(s[i + 3])
    then Some(2000 + 10 * DigitValue(s[i + 2]) + DigitValue(s[i + 3]))
    else None
  }

  /** `\b(20\d{2})-(20\d{2})\b` matches at `i`. */
  function RangeAt(s: string, i: nat): Option<(int, int)> {
    if i + 9 <= |s| && BoundaryBefore(s, i) && YearAt(s, i).Some? && s[i + 4] == '-'
      && YearAt(s, i + 5).Some? && BoundaryAfter(s, i + 9)
    then Some((YearAt(s, i).value, YearAt(s, i + 5).value))
    else None
  }

  /** `re.findall` of the hyphenated-range pattern from position `i`. */
  function FindRanges(s: string, i: nat): (r: seq<(int, int)>)
    ensures forall p | p in r :: InCentury(p.0) && InCentury(p.1)
    decreases |s| - i
  {
    if i >= |s| then []
    else match RangeAt(s, i)
      case Some(p) => [p] + FindRanges(s, i + 9)
      case None => FindRanges(s, i + 1)
  }

  function LowerAscii(c: char): char {
    if 'A' <= c <= 'Z' then (c as int + 32) as char else c
  }

  /** The lower-case word `w` occurs at `i` when letter case is ignored. */
  predicate WordAt(s: string, i: nat, w: string) {
    i + |w| <= |s| && forall k | 0 <= k < |w| :: LowerAscii(s[i + k]) == w[k]
  }

  /** `\s*` from `i`: the end of the run of whitespace starting there. */
  function SkipSpaces(s: string, i: nat): (j: nat)
    requires i <= |s|
    ensures i <= j <= |s|
    ensures forall k | i <= k < j :: IsSpace(s[k])
    ensures j < |s| ==> !IsSpace(s[j])
    decreases |s| - i
  {
    if i < |s| && IsSpace(s[i]) then SkipSpaces(s, i + 1) else i
  }

  /** The end of `between` or `from` at `i`. */
  function OpeningWord(s: string, i: nat): Option<nat> {
    if WordAt(s, i, "between") then Some(i + 7) else if WordAt(s, i, "from") then Some(i + 4) else None
  }

  /** The end of `and` or `to` at `i`. */
  function JoiningWord(s: string, i: nat): Option<nat> {
    if WordAt(s, i, "and") then Some(i + 3) else if WordAt(s, i, "to") then Some(i + 2) else None
  }

  /**
   * `(?:between|from)\s*(20\d{2})\s*(?:and|to)\s*(20\d{2})` matches at `i`: the two years and
   * where the match ends. Whitespace is never a digit or a letter, so the greedy `\s*` never has to
   * give characters back and the match, when there is one, is determined.
   */
  function PhraseAt(s: string, i: nat): (r: Option<((int, int), nat)>)
    ensures r.Some? ==> i < r.value.1 <= |s|
  {
    var open := OpeningWord(s, i);
    if open.None? then None
    else
      var a := SkipSpaces(s, open.value);
      if YearAt(s, a).None? then None
      else
        var join := JoiningWord(s, SkipSpaces(s, a + 4));
        if join.None? then None
        else
          var d := SkipSpaces(s, join.value);
          if YearAt(s, d).None? then None
          else Some(((YearAt(s, a).value, YearAt(s, d).value), d + 4))
  }

  /** `re.findall` of the worded-range pattern from position `i`. */
  function FindPhrases(s: string, i: nat): (r: seq<(int, int)>)
    ensures forall p | p in r :: InCentury(p.0) && InCentury(p.1)
    decreases |s| - i
  {
    if i >= |s| then []
    else match PhraseAt(s, i)
      case Some(m) => [m.0] + FindPhrases(s, m.1)
      case None => FindPhrases(s, i + 1)
  }

  /** `\b20\d{2}\b` matches at `i`. */
  predicate BareAt(s: string, i: nat) {
    YearAt(s, i).Some? && BoundaryBefore(s, i) && BoundaryAfter(s, i + 4)
  }

  /** `re.findall` of the standalone-year pattern from position `i`. */
  function FindBare(s: string, i: nat): (r: seq<int>)
    ensures forall y | y in r :: InCentury(y)
    decreases |s| - i
  {
    if i >= |s| then []
    else if BareAt(s, i) then [YearAt(s, i).value] + FindBare(s, i + 4)
    else FindBare(s, i + 1)
  }

  /** `range(a, b + 1)` as a set. */
  function Span(a: int, b: int): (r: set<int>)
    ensures forall y :: y in r <==> a <= y <= b
    decreases b - a
  {
    if a > b then {} else Span(a, b - 1) + {b}
  }

  /** The years all the ranges of `ps` cover. */
  function Spans(ps: seq<(int, int)>): set<int> {
    if ps == [] then {} else Spans(ps[..|ps| - 1]) + Span(ps[|ps| - 1].0, ps[|ps| - 1].1)
  }

  /** The set of years the prompt asks for: the reference the extractor is proved against. */
  function Wanted(s: string): set<int> {
    Spans(FindRanges(s, 0)) + Spans(FindPhrases(s, 0)) + set y | y in FindBare(s, 0)
  }

  method ExtractYearsFromPrompt(prompt: string) returns (years: seq<string>)
    ensures forall t | t in years :: IsDigits(t) && Number(t) in Wanted(prompt) && t == Decimal(Number(t))
    ensures forall y | y in Wanted(prompt) :: Decimal(y) in years
    ensures forall i, j | 0 <= i < j < |years| ::
      IsDigits(years[i]) && IsDigits(years[j]) && Number(years[i]) < Number(years[j])
  {
    var found := CollectYears(prompt);
    WantedInCentury(prompt);
    years := AscendingTexts(found);
  }

  /** The three scans' years gathered into one set. */
  method CollectYears(prompt: string) returns (found: set<int>)
    ensures found == Wanted(prompt)
  {
    found := AddSpans({}, FindRanges(prompt, 0));
    found := AddSpans(found, FindPhrases(prompt, 0));
    found := AddYears(found, FindBare(prompt, 0));
  }

  /** `found.update(ys)`, one year at a time. */
  method AddYears(found: set<int>, ys: seq<int>) returns (r: set<int>)
    ensures r == found + set y | y in ys
  {
    r := found;
    for k := 0 to |ys|
      invariant r == found + set y | y in ys[..k]
    {
      assert ys[..k + 1] == ys[..k] + [ys[k]];
      r := r + {ys[k]};
    }
    assert ys[..|ys|] == ys;
  }

  /** `found.update(range(a, b + 1))` for each range `(a, b)` in turn. */
  method AddSpans(found: set<int>, ps: seq<(int, int)>) returns (r: set<int>)
    ensures r == found + Spans(ps)
  {
    r := found;
    for k := 0 to |ps|
      invariant r == found + Spans(ps[..k])
    {
      assert ps[..k + 1][..k] == ps[..k];
      r := r + Span(ps[k].0, ps[k].1);
    }
    assert ps[..|ps|] == ps;
  }

  /**
   * `[str(y) for y in sorted(found)]` for years in 2000..2099: the years are visited in ascending
   * order and the ones present are written out.
   */
  method AscendingTexts(found: set<int>) returns (years: seq<string>)
    requires forall y | y in found :: InCentury(y)
    ensures forall t | t in years :: IsDigits(t) && Number(t) in found && t == Decimal(Number(t))
    ensures forall y | y in found :: Decimal(y) in years
    ensures forall i, j | 0 <= i < j < |years| ::
      IsDigits(years[i]) && IsDigits(years[j]) && Number(years[i]) < Number(years[j])
  {
    years := [];
    ghost var ys: seq<nat> := [];
    for y := 2000 to 2100
      invariant |years| == |ys|
      invariant forall i | 0 <= i < |ys| :: years[i] == Decimal(ys[i]) && ys[i] in found && ys[i] < y
      invariant forall i, j | 0 <= i < j < |ys| :: ys[i] < ys[j]
      invariant forall z | 2000 <= z < y && z in found :: z in ys
    {
      if y in found {
        years := years + [Decimal(y)];
        ys := ys + [y];
      }
    }
    DecimalsOfAscending(found, years, ys);
  }

  /** The decimal texts of the ascending list of every year in `found` read back as those years. */
  lemma {:induction false} DecimalsOfAscending(found: set<int>, years: seq<string>, ys: seq<nat>)
    requires |years| == |ys|
    requires forall i | 0 <= i < |ys| :: years[i] == Decimal(ys[i]) && ys[i] in found
    requires forall i, j | 0 <= i < j < |ys| :: ys[i] < ys[j]
    requires forall z | z in found :: z in ys
    ensures forall t | t in years :: IsDigits(t) && Number(t) in found && t == Decimal(Number(t))
    ensures forall y | y in found :: Decimal(y) in years
    ensures forall i, j | 0 <= i < j < |years| ::
      IsDigits(years[i]) && IsDigits(years[j]) && Number(years[i]) < Number(years[j])
  {
    forall i | 0 <= i < |ys|
      ensures IsDigits(years[i]) && Number(years[i]) == ys[i]
    {
      NumberOfDecimal(ys[i]);
    }
    forall y | y in found
      ensures Decimal(y) in years
    {
      var i :| 0 <= i < |ys| && ys[i] == y;
      assert years[i] == Decimal(y);
    }
  }

  /** The covered years of ranges whose ends are in 2000..2099 are in 2000..2099. */
  lemma {:induction false} SpansInCentury(ps: seq<(int, int)>)
    requires forall p | p in ps :: InCentury(p.0) && InCentury(p.1)
    ensures forall y | y in Spans(ps) :: InCentury(y)
  {
    if ps != [] {
      assert forall p | p in ps[..|ps| - 1] :: p in ps;
      SpansInCentury(ps[..|ps| - 1]);
      assert ps[|ps| - 1] in ps;
    }
  }

  /** Every year the prompt yields lies in 2000..2099. */
  lemma {:induction false} WantedInCentury(s: string)
    ensures forall y | y in Wanted(s) :: InCentury(y)
  {
    SpansInCentury(FindRanges(s, 0));
    SpansInCentury(FindPhrases(s, 0));
  }

  /** A year of `Spans(ps)` is covered by one of the ranges of `ps`, and conversely. */
  lemma {:induction false} SpansExact(ps: seq<(int, int)>, y: int)
    ensures y in Spans(ps) <==> exists p | p in ps :: p.0 <= y <= p.1
  {
    if ps != [] {
      var init := ps[..|ps| - 1];
      SpansExact(init, y);
      assert ps == init + [ps[|ps| - 1]];
      assert forall p | p in ps :: p in init || p == ps[|ps| - 1];
    }
  }

  /** The characters `2`, `0` and the two digits of a year are word characters. */
  lemma {:induction false} NoBareInsideYear(s: string, i: nat, k: nat)
    requires YearAt(s, i).Some?
    requires i < k < i + 4
    ensures !BareAt(s, k)
  {
    assert IsWordChar(s[k - 1]);
  }

  /** The standalone-year scan from `i` finds every standalone year at or after `i`. */
  lemma {:induction false} FindBareComplete(s: string, i: nat, k: nat)
    requires i <= k && BareAt(s, k)
    ensures YearAt(s, k).value in FindBare(s, i)
    decreases |s| - i
  {
    if BareAt(s, i) {
      if k != i {
        if k < i + 4 {
          NoBareInsideYear(s, i, k);
        }
        FindBareComplete(s, i + 4, k);
      }
    } else {
      FindBareComplete(s, i + 1, k);
    }
  }

  /** Everything the standalone-year scan from `i` finds is a standalone year at or after `i`. */
  lemma {:induction false} FindBareSound(s: string, i: nat, y: int)
    requires y in FindBare(s, i)
    ensures exists k: nat | i <= k :: BareAt(s, k) && YearAt(s, k) == Some(y)
    decreases |s| - i
  {
    if BareAt(s, i) && YearAt(s, i).value != y {
      FindBareSound(s, i + 4, y);
    } else if !BareAt(s, i) {
      FindBareSound(s, i + 1, y);
    }
  }

  /** The standalone years the scan returns are exactly those `\b20dd\b` occurrences denote. */
  lemma {:induction false} BareYearsExact(s: string, y: int)
    ensures y in FindBare(s, 0) <==> exists k: nat :: BareAt(s, k) && YearAt(s, k) == Some(y)
  {
    if y in FindBare(s, 0) {
      FindBareSound(s, 0, y);
    }
    if exists k: nat :: BareAt(s, k) && YearAt(s, k) == Some(y) {
      var k: nat :| BareAt(s, k) && YearAt(s, k) == Some(y);
      FindBareComplete(s, 0, k);
    }
  }

  /**
   * The two ends of a hyphenated range are standalone years as well, so both are in the result
   * even when the range is written backwards and expands to nothing.
   */
  lemma {:induction false} RangeEndsKept(s: string, i: nat)
    requires RangeAt(s, i).Some?
    ensures RangeAt(s, i).value.0 in Wanted(s) && RangeAt(s, i).value.1 in Wanted(s)
  {
    assert BareAt(s, i);
    assert BareAt(s, i + 5);
    FindBareComplete(s, 0, i);
    FindBareComplete(s, 0, i + 5);
  }

  /** Every year from the start to the end of a range the scan matched is in the result. */
  lemma {:induction false} RangeExpanded(s: string, p: (int, int), y: int)
    requires p in FindRanges(s, 0) || p in FindPhrases(s, 0)
    requires p.0 <= y <= p.1
    ensures y in Wanted(s)
  {
    SpansExact(FindRanges(s, 0), y);
    SpansExact(FindPhrases(s, 0), y);
  }

  /** A year is wanted only if a range covers it or it stands alone in the prompt. */
  lemma {:induction false} WantedSources(s: string, y: int)
    requires y in Wanted(s)
    ensures (exists p | p in FindRanges(s, 0) :: p.0 <= y <= p.1)
      || (exists p | p in FindPhrases(s, 0) :: p.0 <= y <= p.1)
      || (exists k: nat :: BareAt(s, k) && YearAt(s, k) == Some(y))
  {
    SpansExact(FindRanges(s, 0), y);
    SpansExact(FindPhrases(s, 0), y);
    BareYearsExact(s, y);
  }

  /** Without a `b` or an `f`, in either case, from `i` on, there is no worded range there. */
  lemma {:induction false} NoPhraseWithoutOpening(s: string, i: nat)
    requires forall k | i <= k < |s| :: LowerAscii(s[k]) != 'b' && LowerAscii(s[k]) != 'f'
    ensures FindPhrases(s, i) == []
    decreases |s| - i
  {
    if i < |s| {
      assert "between"[0] == 'b' && "from"[0] == 'f' && s[i + 0] == s[i];
      assert !WordAt(s, i, "between") && !WordAt(s, i, "from");
      NoPhraseWithoutOpening(s, i + 1);
    }
  }

  /** `2017-2020` asks for 2017, 2018, 2019 and 2020. */
  lemma {:induction false} HyphenRangeExample()
    ensures Wanted("2017-2020") == {2017, 2018, 2019, 2020}
  {
    var s := "2017-2020";
    assert RangeAt(s, 0) == Some((2017, 2020));
    assert FindRanges(s, 0) == [(2017, 2020)];
    assert FindBare(s, 0) == [2017, 2020];
    NoPhraseWithoutOpening(s, 0);
  }

  /** Without a hyphen from `i` on, there is no hyphenated range there. */
  lemma {:induction false} NoRangeWithoutHyphen(s: string, i: nat)
    requires forall k | i <= k < |s| :: s[k] != '-'
    ensures FindRanges(s, i) == []
    decreases |s| - i
  {
    if i < |s| {
      NoRangeWithoutHyphen(s, i + 1);
    }
  }

  /** `2020-2017` is a range written backwards: it adds nothing, and its two ends stand alone. */
  lemma {:induction false} BackwardRangeExample()
    ensures Wanted("2020-2017") == {2017, 2020}
  {
    var s := "2020-2017";
    assert RangeAt(s, 0) == Some((2020, 2017));
    assert FindRanges(s, 0) == [(2020, 2017)];
    assert Span(2020, 2017) == {};
    assert FindBare(s, 0) == [2020, 2017];
    NoPhraseWithoutOpening(s, 0);
  }

  const FromExample := "From 2014 to 2019"

  /** The character layout of `From 2014 to 2019`, position by position. */
  predicate FromLayout(s: string) {
    && |s| == 17 && s[0] == 'F' && s[1] == 'r' && s[2] == 'o' && s[3] == 'm' && s[4] == ' '
    && s[5] == '2' && s[6] == '0' && s[7] == '1' && s[8] == '4' && s[9] == ' '
    && s[10] == 't' && s[11] == 'o' && s[12] == ' '
    && s[13] == '2' && s[14] == '0' && s[15] == '1' && s[16] == '9'
  }

  lemma {:induction false} FromExampleLayout()
    ensures FromLayout(FromExample)
  {
  }

  lemma {:induction false} FromLayoutWords(s: string)
    requires FromLayout(s)
    ensures OpeningWord(s, 0) == Some(4)
    ensures JoiningWord(s, 10) == Some(12)
  {
    assert !WordAt(s, 0, "between") by { assert LowerAscii(s[0]) != "between"[0]; }
    assert WordAt(s, 0, "from") by {
      assert LowerAscii(s[0]) == 'f' && s[1] == 'r' && s[2] == 'o' && s[3] == 'm';
    }
    assert !WordAt(s, 10, "and") by { assert LowerAscii(s[10]) != "and"[0]; }
    assert WordAt(s, 10, "to") by { assert s[10] == 't' && s[11] == 'o'; }
  }

  /** The worded-range scan of `From 2014 to 2019` finds 2014 to 2019. */
  lemma {:induction false} WordedRangeScan()
    ensures FindPhrases(FromExample, 0) == [(2014, 2019)]
  {
    var s := FromExample;
    FromExampleLayout();
    FromLayoutWords(s);
    assert SkipSpaces(s, 4) == 5 && SkipSpaces(s, 9) == 10 && SkipSpaces(s, 12) == 13;
    assert YearAt(s, 5) == Some(2014);
    assert YearAt(s, 13) == Some(2019);
    assert PhraseAt(s, 0) == Some(((2014, 2019), 17));
  }

  /** The standalone-year scan of `From 2014 to 2019` finds both ends. */
  lemma {:induction false} WordedRangeBare()
    ensures FindBare(FromExample, 0) == [2014, 2019]
    ensures FindRanges(FromExample, 0) == []
  {
    FromExampleLayout();
    FromLayoutBare(FromExample);
  }

  lemma {:induction false} FromLayoutBare(s: string)
    requires FromLayout(s)
    ensures FindBare(s, 0) == [2014, 2019]
    ensures FindRanges(s, 0) == []
  {
    NoRangeWithoutHyphen(s, 0);
    NoBareBetween(s, 0, 5);
    assert BareAt(s, 5) && YearAt(s, 5) == Some(2014);
    NoBareBetween(s, 9, 13);
    assert BareAt(s, 13) && YearAt(s, 13) == Some(2019);
  }

  /** Where no `2` stands between `i` and `j`, the standalone-year scan skips straight to `j`. */
  lemma {:induction false} NoBareBetween(s: string, i: nat, j: nat)
    requires i <= j <= |s|
    requires forall k | i <= k < j :: s[k] != '2'
    ensures FindBare(s, i) == FindBare(s, j)
    decreases j - i
  {
    if i < j {
      NoBareBetween(s, i + 1, j);
    }
  }

  /** `From 2014 to 2019` asks for every year from 2014 to 2019. */
  lemma {:induction false} WordedRangeExample()
    ensures Wanted(FromExample) == Span(2014, 2019)
  {
    WordedRangeScan();
    WordedRangeBare();
  }
}
