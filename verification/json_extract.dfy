/**
 * The first-JSON extractor used on the model's answer: from the first `{`, count `{` up and `}`
 * down and cut at the first point where the count is back to zero. Braces inside JSON string
 * literals are counted like any other, exactly as the source does.
 */
module JsonExtractor {
  import opened Text
  import opened Wrappers

  predicate IsOpenBrace(c: char) { c == '{' }

  function Delta(c: char): int {
    if c == '{' then 1 else if c == '}' then -1 else 0
  }

  /** The brace depth after reading `s`: opening braces minus closing braces. */
  function Depth(s: string): int {
    if s == [] then 0 else Depth(s[..|s| - 1]) + Delta(s[|s| - 1])
  }

  /** The depth after reading `text` from `start` through position `j`. */
  function DepthThrough(text: string, start: nat, j: int): int
    requires start <= j < |text|
  {
    Depth(text[start..j + 1])
  }

  /** `text.find('{')`, with `|text|` for "not found". */
  function FirstBrace(text: string): nat {
    IndexOrEnd(text, IsOpenBrace)
  }

  /** The depth counted from `start` returns to zero at `e` for the first time. */
  ghost predicate ClosesAt(text: string, start: nat, e: int) {
    start <= e < |text| && DepthThrough(text, start, e) == 0
    && forall j | start <= j < e :: DepthThrough(text, start, j) != 0
  }

  method ExtractFirstJson(text: string) returns (r: Option<string>)
    ensures '{' !in text ==> r == None
    ensures '{' in text ==> (r.Some? <==> exists e :: ClosesAt(text, FirstBrace(text), e))
    ensures forall e | ClosesAt(text, FirstBrace(text), e) :: r == Some(text[FirstBrace(text)..e + 1])
  {
    var start := FirstBrace(text);
    if start == |text| {
      assert forall e :: !ClosesAt(text, start, e);
      return None;
    }
    var depth := 0;
    for i := start to |text|
      invariant depth == Depth(text[start..i])
      invariant forall j | start <= j < i :: DepthThrough(text, start, j) > 0
    {
      assert text[start..i + 1][..i - start] == text[start..i];
      assert i > start ==> depth == DepthThrough(text, start, i - 1) > 0;
      var ch := text[i];
      if ch == '{' {
        depth := depth + 1;
      } else if ch == '}' {
        depth := depth - 1;
        if depth == 0 {
          assert ClosesAt(text, start, i);
          return Some(text[start..i + 1]);
        }
      }
    }
    assert forall e :: !ClosesAt(text, start, e);
    return None;
  }

  /** Before it closes, the depth counted from the first brace stays positive. */
  lemma {:induction false} DepthPositiveBeforeClose(text: string, start: nat, e: int, j: int)
    requires start < |text| && text[start] == '{'
    requires start <= e < |text|
    requires forall k | start <= k < e :: DepthThrough(text, start, k) != 0
    requires start <= j <= e
    ensures j < e ==> DepthThrough(text, start, j) > 0
    ensures DepthThrough(text, start, j) >= 0
    decreases j
  {
    var s := text[start..j + 1];
    assert s[..|s| - 1] == text[start..j];
    if j == start {
      assert s[..0] == [] && s[0] == '{';
      assert Depth(s) == Depth(s[..0]) + Delta(s[0]);
    } else {
      DepthPositiveBeforeClose(text, start, e, j - 1);
    }
  }

  /**
   * What the extractor returns starts with `{`, ends with `}`, holds as many `{` as `}`, and is a
   * slice of the text that begins at its first brace.
   */
  lemma {:induction false} ExtractedObjectShape(text: string, e: int)
    requires '{' in text
    requires ClosesAt(text, FirstBrace(text), e)
    ensures var s := FirstBrace(text);
      && s < e && text[s] == '{' && text[e] == '}' && Depth(text[s..e + 1]) == 0
      && forall j | 0 <= j < s :: text[j] != '{'
  {
    var s := FirstBrace(text);
    var w :| 0 <= w < |text| && text[w] == '{';
    assert s < |text|;
    assert text[s..s + 1][..0] == [];
    assert Depth(text[s..s + 1]) == 1;
    DepthPositiveBeforeClose(text, s, e, e - 1);
    var pre := text[s..e + 1];
    assert pre[..|pre| - 1] == text[s..e];
  }

  /** Text with an opening brace that never closes yields nothing. */
  lemma {:induction false} UnclosedYieldsNothing(text: string)
    requires '{' in text
    requires forall j | FirstBrace(text) <= j < |text| :: DepthThrough(text, FirstBrace(text), j) > 0
    ensures forall e :: !ClosesAt(text, FirstBrace(text), e)
  {
  }
}
