/**
 * The text normaliser applied to every model answer: typographic look-alikes are replaced by
 * their ASCII counterparts one table entry at a time, and the result is stripped of surrounding
 * whitespace.
 */
module TextNormalizer {
  import opened Text

  /** The substitution table, in the order the source's dictionary lists it. */
  const Replacements: seq<(char, string)> := [
    ('\U{201C}', "\""), ('\U{201D}', "\""), ('\U{2018}', "'"), ('\U{2019}', "'"),
    ('\U{2013}', "-"), ('\U{2014}', "-"), ('\U{A0}', " "),
    ('\U{2012}', "-"), ('`', "")
  ]

  /** The characters the normaliser removes: curly quotes, dashes, no-break space, backtick. */
  predicate IsLookalike(c: char) {
    c == '\U{201C}' || c == '\U{201D}' || c == '\U{2018}' || c == '\U{2019}' || c == '\U{2013}'
    || c == '\U{2014}' || c == '\U{2012}' || c == '\U{A0}' || c == '`'
  }

  /** Python's `s.replace(k, v)` for a one-character `k`. */
  function ReplaceChar(s: string, k: char, v: string): (r: string)
    ensures forall c | c in r :: (c in s && c != k) || c in v
  {
    if s == [] then [] else (if s[0] == k then v else [s[0]]) + ReplaceChar(s[1..], k, v)
  }

  /** The replacements of `t` applied one after the other, as the source's loop does. */
  function ApplyAll(s: string, t: seq<(char, string)>): string
    decreases t
  {
    if t == [] then s else ApplyAll(ReplaceChar(s, t[0].0, t[0].1), t[1..])
  }

  /** The replacement the first entry of `t` keyed by `c` gives, or `c` itself. */
  function Lookup(c: char, t: seq<(char, string)>): string {
    if t == [] then [c] else if t[0].0 == c then t[0].1 else Lookup(c, t[1..])
  }

  /** A one-pass translation of `s` character by character: the reference definition. */
  function Translate(s: string, t: seq<(char, string)>): string {
    if s == [] then [] else Lookup(s[0], t) + Translate(s[1..], t)
  }

  /** No replacement text contains a key, so a later entry never rewrites an earlier result. */
  predicate CleanValues(t: seq<(char, string)>) {
    forall i, j | 0 <= i < |t| && 0 <= j < |t| :: t[j].0 !in t[i].1
  }

  /** What `normalize_text` returns. */
  function Normalized(s: string): string {
    Strip(Translate(s, Replacements))
  }

  method NormalizeText(txt0: string) returns (r: string)
    ensures r == Normalized(txt0)
  {
    var txt := txt0;
    for i := 0 to |Replacements|
      invariant ApplyAll(txt, Replacements[i..]) == ApplyAll(txt0, Replacements)
    {
      assert Replacements[i..][1..] == Replacements[i + 1..];
      var (k, v) := Replacements[i];
      txt := ReplaceChar(txt, k, v);
    }
    ReplacementsAreClean();
    ApplyAllIsTranslate(txt0, Replacements);
    r := Strip(txt);
  }

  lemma {:induction false} ReplacementsAreClean()
    ensures CleanValues(Replacements)
    ensures forall i | 0 <= i < |Replacements| ::
      forall c | c in Replacements[i].1 :: c == '"' || c == '\'' || c == '-' || c == ' '
  {
    forall i | 0 <= i < |Replacements|
      ensures forall c | c in Replacements[i].1 :: c == '"' || c == '\'' || c == '-' || c == ' '
    {
    }
  }

  lemma {:induction false} ReplaceCharConcat(a: string, b: string, k: char, v: string)
    ensures ReplaceChar(a + b, k, v) == ReplaceChar(a, k, v) + ReplaceChar(b, k, v)
  {
    if a != [] {
      assert (a + b)[1..] == a[1..] + b;
      ReplaceCharConcat(a[1..], b, k, v);
    } else {
      assert a + b == b;
    }
  }

  lemma {:induction false} ApplyAllConcat(a: string, b: string, t: seq<(char, string)>)
    ensures ApplyAll(a + b, t) == ApplyAll(a, t) + ApplyAll(b, t)
    decreases t
  {
    if t != [] {
      ReplaceCharConcat(a, b, t[0].0, t[0].1);
      ApplyAllConcat(ReplaceChar(a, t[0].0, t[0].1), ReplaceChar(b, t[0].0, t[0].1), t[1..]);
    }
  }

  lemma {:induction false} ReplaceCharAbsent(s: string, k: char, v: string)
    requires k !in s
    ensures ReplaceChar(s, k, v) == s
  {
    if s != [] {
      ReplaceCharAbsent(s[1..], k, v);
    }
  }

  /** Text holding no key of `t` passes through all the replacements unchanged. */
  lemma {:induction false} ApplyAllNoKeys(s: string, t: seq<(char, string)>)
    requires forall j | 0 <= j < |t| :: t[j].0 !in s
    ensures ApplyAll(s, t) == s
    decreases t
  {
    if t != [] {
      ReplaceCharAbsent(s, t[0].0, t[0].1);
      ApplyAllNoKeys(s, t[1..]);
    }
  }

  lemma {:induction false} ApplyAllChar(c: char, t: seq<(char, string)>)
    requires CleanValues(t)
    ensures ApplyAll([c], t) == Lookup(c, t)
    decreases t
  {
    if t != [] {
      var (k, v) := t[0];
      assert CleanValues(t[1..]) by {
        forall i, j | 0 <= i < |t[1..]| && 0 <= j < |t[1..]| ensures t[1..][j].0 !in t[1..][i].1 {
          assert t[1..][j] == t[j + 1] && t[1..][i] == t[i + 1];
        }
      }
      if k == c {
        assert [c][1..] == [];
        assert ReplaceChar([c], k, v) == v + ReplaceChar([], k, v);
        assert v + [] == v;
        assert forall j | 0 <= j < |t[1..]| :: t[1..][j].0 !in v by {
          forall j | 0 <= j < |t[1..]| ensures t[1..][j].0 !in v {
            assert t[1..][j] == t[j + 1];
          }
        }
        ApplyAllNoKeys(v, t[1..]);
      } else {
        assert [c][1..] == [];
        assert ReplaceChar([c], k, v) == [c] + ReplaceChar([], k, v);
        ApplyAllChar(c, t[1..]);
      }
    }
  }

  /** Replacing the table's keys one after the other equals the one-pass translation. */
  lemma {:induction false} ApplyAllIsTranslate(s: string, t: seq<(char, string)>)
    requires CleanValues(t)
    ensures ApplyAll(s, t) == Translate(s, t)
  {
    if s == [] {
      ApplyAllNoKeys(s, t);
    } else {
      assert s == [s[0]] + s[1..];
      ApplyAllConcat([s[0]], s[1..], t);
      ApplyAllChar(s[0], t);
      ApplyAllIsTranslate(s[1..], t);
    }
  }

  lemma {:induction false} TranslateRemovesLookalikes(s: string)
    ensures forall c | c in Translate(s, Replacements) :: !IsLookalike(c)
  {
    if s != [] {
      LookalikeIsKey(s[0]);
      LookupIsClean(s[0], Replacements);
      TranslateRemovesLookalikes(s[1..]);
    }
  }

  lemma {:induction false} LookalikeIsKey(c: char)
    ensures IsLookalike(c) ==> exists i | 0 <= i < |Replacements| :: Replacements[i].0 == c
  {
    if c == '\U{201C}' { assert Replacements[0].0 == c; }
    if c == '\U{201D}' { assert Replacements[1].0 == c; }
    if c == '\U{2018}' { assert Replacements[2].0 == c; }
    if c == '\U{2019}' { assert Replacements[3].0 == c; }
    if c == '\U{2013}' { assert Replacements[4].0 == c; }
    if c == '\U{2014}' { assert Replacements[5].0 == c; }
    if c == '\U{A0}' { assert Replacements[6].0 == c; }
    if c == '\U{2012}' { assert Replacements[7].0 == c; }
    if c == '`' { assert Replacements[8].0 == c; }
  }

  lemma {:induction false} LookupIsClean(c: char, t: seq<(char, string)>)
    requires forall i | 0 <= i < |t| :: IsLookalike(t[i].0) && forall d | d in t[i].1 :: !IsLookalike(d)
    requires IsLookalike(c) ==> exists i | 0 <= i < |t| :: t[i].0 == c
    ensures forall d | d in Lookup(c, t) :: !IsLookalike(d)
  {
    if t != [] && t[0].0 != c {
      if IsLookalike(c) {
        var i :| 0 <= i < |t| && t[i].0 == c;
        assert t[1..][i - 1].0 == c;
      }
      LookupIsClean(c, t[1..]);
    }
  }

  /**
   * The normalised text holds no typographic quote, dash, no-break space or backtick, and neither
   * starts nor ends with whitespace.
   */
  lemma {:induction false} NormalizedIsClean(s: string)
    ensures forall c | c in Normalized(s) :: !IsLookalike(c)
    ensures var r := Normalized(s); r != [] ==> !IsSpace(r[0]) && !IsSpace(r[|r| - 1])
  {
    TranslateRemovesLookalikes(s);
  }
}
