/**
 * The item-code resolver's handling of the model's answer. The answer is normalised and read as
 * JSON; an array yields the elements whose text is a four-digit code, and anything else falls
 * back to every standalone four-digit number in the answer. Either way duplicates are dropped and
 * the order of first appearance is kept.
 */
module ItemCodes {
  import opened Text
  import opened Wrappers
  import opened IntentModel
  import TextNormalizer

  /** An element of a JSON array: a scalar, or a float, array or object. */
  datatype JsonItem = Item(x: Scalar) | NotScalar

  /** What `json.loads` gives for the answer: an array, or any other JSON document. */
  datatype JsonDoc = JsonArray(items: seq<JsonItem>) | NotArray

  /** Exactly four ASCII digits: what an item code looks like. */
  predicate IsItemCode(s: string) {
    |s| == 4 && IsDigits(s)
  }

  /**
   * `re.match(r'^\d{4}$', s)` as Python evaluates it: without MULTILINE, `$` also matches just
   * before a newline that ends the text.
   */
  predicate MatchesAsWritten(s: string) {
    IsItemCode(s) || (|s| == 5 && IsItemCode(s[..4]) && s[4] == '\n')
  }

  /** An array element passes the check `pass` on its text. Floats, arrays and objects never do. */
  predicate Passes(e: JsonItem, pass: string -> bool) {
    e.Item? && pass(PyStr(e.x))
  }

  /** The texts of the elements that pass `pass`, in array order. */
  function Passing(items: seq<JsonItem>, pass: string -> bool): (r: seq<string>)
    ensures forall t | t in r :: pass(t)
  {
    if items == [] then []
    else
      var init := Passing(items[..|items| - 1], pass);
      var e := items[|items| - 1];
      if Passes(e, pass) then init + [PyStr(e.x)] else init
  }

  /** The distinct elements of `xs` in order of first appearance. */
  function Dedup(xs: seq<string>): (r: seq<string>)
    ensures forall x :: x in r <==> x in xs
    ensures forall i, j | 0 <= i < j < |r| :: r[i] != r[j]
  {
    if xs == [] then []
    else
      var d := Dedup(xs[..|xs| - 1]);
      if xs[|xs| - 1] in d then d else d + [xs[|xs| - 1]]
  }

  /** The position of the first `x` in `xs`. */
  function FirstIndex<T(==)>(xs: seq<T>, x: T): (k: nat)
    requires x in xs
    ensures k < |xs| && xs[k] == x && forall j | 0 <= j < k :: xs[j] != x
  {
    if xs[0] == x then 0 else 1 + FirstIndex(xs[1..], x)
  }

  /** A run of four digits standing alone at `i`: `\b\d{4}\b`. */
  predicate CodeAt(s: string, i: nat) {
    i + 4 <= |s| && IsItemCode(s[i..i + 4]) && BoundaryBefore(s, i) && BoundaryAfter(s, i + 4)
  }

  /** `re.findall(r'\b\d{4}\b', s)` from position `i`. */
  function FindCodes(s: string, i: nat): (r: seq<string>)
    ensures forall t | t in r :: IsItemCode(t)
    decreases |s| - i
  {
    if i >= |s| then []
    else if CodeAt(s, i) then [s[i..i + 4]] + FindCodes(s, i + 4)
    else FindCodes(s, i + 1)
  }

  /**
   * The array branch: each element's text, kept when it passes `pass` and was not seen before.
   * The source's check is `MatchesAsWritten`; the corrected one is `IsItemCode`.
   */
  method UniqueListedCodes(items: seq<JsonItem>, pass: string -> bool) returns (codes: seq<string>)
    ensures codes == Dedup(Passing(items, pass))
    ensures forall t | t in codes :: pass(t)
  {
    codes := [];
    var seen: set<string> := {};
    for k := 0 to |items|
      invariant codes == Dedup(Passing(items[..k], pass))
      invariant seen == set t | t in codes
    {
      assert items[..k + 1][..k] == items[..k];
      var e := items[k];
      if e.Item? {
        var text := PyStr(e.x);
        if pass(text) && text !in seen {
          seen := seen + {text};
          codes := codes + [text];
        }
      }
    }
    assert items[..|items|] == items;
  }

  /** The fallback branch: the standalone four-digit numbers, each kept once. */
  method UniqueFoundCodes(raw: string) returns (codes: seq<string>)
    ensures codes == Dedup(FindCodes(raw, 0))
    ensures forall t | t in codes :: IsItemCode(t)
  {
    var found := FindCodes(raw, 0);
    codes := [];
    var seen: set<string> := {};
    for k := 0 to |found|
      invariant codes == Dedup(found[..k])
      invariant seen == set t | t in codes
    {
      assert found[..k + 1][..k] == found[..k];
      if found[k] !in seen {
        seen := seen + {found[k]};
        codes := codes + [found[k]];
      }
    }
    assert found[..|found|] == found;
  }

  /**
   * What the resolver returns for the model's answer `reply` (`None` when the metadata request or
   * the model call fails, which the source turns into an empty list), with `loads` standing for
   * `json.loads` (`None` when it raises) and `pass` for the check an array element must pass.
   */
  function Resolved(reply: Option<string>, loads: string -> Option<JsonDoc>, pass: string -> bool): (r: seq<string>)
    ensures forall t | t in r :: pass(t) || IsItemCode(t)
    ensures forall i, j | 0 <= i < j < |r| :: r[i] != r[j]
  {
    if reply.None? then []
    else
      var raw := TextNormalizer.Normalized(reply.value);
      match loads(raw)
      case Some(JsonArray(items)) => Dedup(Passing(items, pass))
      case _ => Dedup(FindCodes(raw, 0))
  }

  /** The resolver with the check `pass`: `MatchesAsWritten` as in the source. */
  method ResolveItemCodes(reply: Option<string>, loads: string -> Option<JsonDoc>, pass: string -> bool)
    returns (codes: seq<string>)
    ensures codes == Resolved(reply, loads, pass)
  {
    if reply.None? {
      return [];
    }
    var raw := TextNormalizer.NormalizeText(reply.value);
    var doc := loads(raw);
    if doc.Some? && doc.value.JsonArray? {
      codes := UniqueListedCodes(doc.value.items, pass);
    } else {
      codes := UniqueFoundCodes(raw);
    }
  }

  /** The resolver with the corrected check: only exactly four digits pass. */
  method SanitizeItemCodes(reply: Option<string>, loads: string -> Option<JsonDoc>) returns (codes: seq<string>)
    ensures reply.None? ==> codes == []
    ensures reply.Some? ==> var raw := TextNormalizer.Normalized(reply.value);
      codes == match loads(raw)
        case Some(JsonArray(items)) => Dedup(Passing(items, IsItemCode))
        case _ => Dedup(FindCodes(raw, 0))
    ensures forall t | t in codes :: IsItemCode(t)
    ensures forall i, j | 0 <= i < j < |codes| :: codes[i] != codes[j]
  {
    codes := ResolveItemCodes(reply, loads, IsItemCode);
  }

  /** A sequence without repeats is its own deduplication. */
  lemma {:induction false} DedupOfDistinct(xs: seq<string>)
    requires forall i, j | 0 <= i < j < |xs| :: xs[i] != xs[j]
    ensures Dedup(xs) == xs
  {
    if xs != [] {
      var init := xs[..|xs| - 1];
      DedupOfDistinct(init);
      assert xs == init + [xs[|xs| - 1]];
    }
  }

  /** Deduplicating twice is deduplicating once. */
  lemma {:induction false} DedupIdempotent(xs: seq<string>)
    ensures Dedup(Dedup(xs)) == Dedup(xs)
  {
    DedupOfDistinct(Dedup(xs));
  }

  /** The first `x` of a sequence is still the first `x` once something is appended. */
  lemma {:induction false} FirstIndexAppend<T>(xs: seq<T>, y: T, x: T)
    requires x in xs
    ensures FirstIndex(xs + [y], x) == FirstIndex(xs, x)
  {
    var k := FirstIndex(xs, x);
    var k' := FirstIndex(xs + [y], x);
    assert (xs + [y])[k] == x;
    assert k' <= k;
    assert (xs + [y])[k'] == xs[k'];
  }

  /** The codes come out in the order in which each first appears. */
  lemma {:induction false} DedupKeepsFirstOrder(xs: seq<string>, i: nat, j: nat)
    requires i < j < |Dedup(xs)|
    ensures FirstIndex(xs, Dedup(xs)[i]) < FirstIndex(xs, Dedup(xs)[j])
  {
    var init := xs[..|xs| - 1];
    var last := xs[|xs| - 1];
    var d := Dedup(init);
    assert xs == init + [last];
    if last in d {
      DedupKeepsFirstOrder(init, i, j);
      FirstIndexAppend(init, last, d[i]);
      FirstIndexAppend(init, last, d[j]);
    } else {
      FirstIndexAppend(init, last, d[i]);
      if j < |d| {
        DedupKeepsFirstOrder(init, i, j);
        FirstIndexAppend(init, last, d[j]);
      } else {
        assert last !in init;
        assert FirstIndex(xs, last) == |xs| - 1;
      }
    }
  }

  /** The array branch keeps the texts of the elements that pass, and only those. */
  lemma {:induction false} PassingExact(items: seq<JsonItem>, pass: string -> bool, t: string)
    ensures t in Passing(items, pass) <==> exists e | e in items :: Passes(e, pass) && PyStr(e.x) == t
  {
    if items != [] {
      var init := items[..|items| - 1];
      PassingExact(init, pass, t);
      assert items == init + [items[|items| - 1]];
      assert forall e | e in items :: e in init || e == items[|items| - 1];
    }
  }

  /** No standalone four-digit number starts inside another one. */
  lemma {:induction false} NoCodeInsideCode(s: string, i: nat, k: nat)
    requires CodeAt(s, i)
    requires i < k < i + 4
    ensures !CodeAt(s, k)
  {
    assert s[i..i + 4][k - 1 - i] == s[k - 1];
    assert IsWordChar(s[k - 1]);
  }

  /** The fallback scan from `i` finds every standalone four-digit number at or after `i`. */
  lemma {:induction false} FindCodesComplete(s: string, i: nat, k: nat)
    requires i <= k && CodeAt(s, k)
    ensures s[k..k + 4] in FindCodes(s, i)
    decreases |s| - i
  {
    if CodeAt(s, i) {
      if k != i {
        if k < i + 4 {
          NoCodeInsideCode(s, i, k);
        }
        FindCodesComplete(s, i + 4, k);
      }
    } else {
      FindCodesComplete(s, i + 1, k);
    }
  }

  /** Everything the fallback scan from `i` finds stands alone in the text at or after `i`. */
  lemma {:induction false} FindCodesSound(s: string, i: nat, t: string)
    requires t in FindCodes(s, i)
    ensures exists k: nat | i <= k :: CodeAt(s, k) && s[k..k + 4] == t
    decreases |s| - i
  {
    if CodeAt(s, i) && s[i..i + 4] != t {
      FindCodesSound(s, i + 4, t);
    } else if !CodeAt(s, i) {
      FindCodesSound(s, i + 1, t);
    }
  }

  /** The fallback yields exactly the four-digit numbers that stand alone in the answer. */
  lemma {:induction false} FoundCodesExact(s: string, t: string)
    ensures t in Dedup(FindCodes(s, 0)) <==> exists k: nat :: CodeAt(s, k) && s[k..k + 4] == t
  {
    if t in FindCodes(s, 0) {
      FindCodesSound(s, 0, t);
    }
    if exists k: nat :: CodeAt(s, k) && s[k..k + 4] == t {
      var k: nat :| CodeAt(s, k) && s[k..k + 4] == t;
      FindCodesComplete(s, 0, k);
    }
  }

  /** `"0100\n"` passes the check as written although it is not a four-digit code. */
  lemma {:induction false} NewlineCodeAdmitted()
    ensures MatchesAsWritten("0100\n") && !IsItemCode("0100\n")
    ensures Dedup(Passing([Item(SStr("0100\n"))], MatchesAsWritten)) == ["0100\n"]
  {
    var items := [Item(SStr("0100\n"))];
    assert "0100\n"[..4] == "0100";
    assert items[..0] == [];
    assert Passing(items, MatchesAsWritten) == ["0100\n"];
  }

  /** Any code followed by a newline passes the check as written. */
  lemma {:induction false} NewlineAfterAnyCodeAdmitted(code: string)
    requires IsItemCode(code)
    ensures MatchesAsWritten(code + "\n") && !IsItemCode(code + "\n")
  {
    assert (code + "\n")[..4] == code;
  }

  /**
   * For a reply that reads as the array `["0100\n"]`, the resolver as written returns the
   * non-code `"0100\n"`, and the corrected one returns nothing.
   */
  lemma {:induction false} ResolverAsWrittenAdmitsNewline(reply: string, loads: string -> Option<JsonDoc>)
    requires loads(TextNormalizer.Normalized(reply)) == Some(JsonArray([Item(SStr("0100\n"))]))
    ensures Resolved(Some(reply), loads, MatchesAsWritten) == ["0100\n"]
    ensures Resolved(Some(reply), loads, IsItemCode) == []
  {
    var items := [Item(SStr("0100\n"))];
    ResolvedArray(reply, loads, items, MatchesAsWritten);
    ResolvedArray(reply, loads, items, IsItemCode);
    NewlineCodeAdmitted();
    assert Passing(items, IsItemCode) == [] by {
      assert items[..0] == [];
      assert !Passes(items[0], IsItemCode);
    }
  }

  /** A reply that reads as an array resolves to the distinct passing texts of its elements. */
  lemma ResolvedArray(reply: string, loads: string -> Option<JsonDoc>, items: seq<JsonItem>, pass: string -> bool)
    requires loads(TextNormalizer.Normalized(reply)) == Some(JsonArray(items))
    ensures Resolved(Some(reply), loads, pass) == Dedup(Passing(items, pass))
  {
  }

  const ListedExample := [Item(SStr("0100")), Item(SInt(100)), Item(SStr("0100")), Item(SStr("0200"))]

  /** Only the elements whose text is a code pass: `100` does not. */
  lemma {:induction false} ListedExamplePassing()
    ensures Passing(ListedExample, IsItemCode) == ["0100", "0100", "0200"]
  {
    var items := ListedExample;
    assert PyStr(SInt(100)) == "100";
    assert items[..3][..2] == items[..2] && items[..2][..1] == items[..1] && items[..1][..0] == [];
    assert Passing(items[..1], IsItemCode) == ["0100"];
    assert Passing(items[..2], IsItemCode) == ["0100"];
    assert Passing(items[..3], IsItemCode) == ["0100", "0100"];
  }

  lemma {:induction false} DedupExample()
    ensures Dedup(["0100", "0100", "0200"]) == ["0100", "0200"]
  {
    var p := ["0100", "0100", "0200"];
    assert p[..2][..1] == p[..1] && p[..1][..0] == [];
    assert Dedup(p[..1]) == ["0100"];
    assert Dedup(p[..2]) == ["0100"];
  }

  /** Repeated and non-code elements are dropped: `["0100", 100, "0100", "0200"]`. */
  lemma {:induction false} ListedCodesExample()
    ensures Dedup(Passing(ListedExample, IsItemCode)) == ["0100", "0200"]
  {
    ListedExamplePassing();
    DedupExample();
  }
}
