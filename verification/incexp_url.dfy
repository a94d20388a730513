/**
 * The incexp URL: `BASE/cubes/incexp/<endpoint>?k=v&k=v`, with the parameters in a fixed order
 * and nothing percent-encoded, and the validator that inspects its path and query components
 * (section 3 of RFC 3986).
 */
module IncexpUrl {
  import opened Text
  import opened Wrappers
  import opened IntentModel
  import opened CutParam

  const Base := "https://municipaldata.treasury.gov.za/api"
  const CubePath := "/cubes/incexp/"
  const ApiCubePath := "/api/cubes/incexp/"
  const DefaultPagesize := 20

  /** The path segment after `/cubes/incexp/`: `facts` when the key is missing. */
  function EndpointText(c: Intent): string {
    if c.endpoint.Some? then PyStr(c.endpoint.value) else "facts"
  }

  /** `drilldown` appears only for a non-empty list, joined with `|`. */
  function DrilldownValue(c: Intent): Option<string> {
    if c.drilldown.Some? && c.drilldown.value.DrillList? && c.drilldown.value.names != [] then
      Some(Join("|", c.drilldown.value.names))
    else None
  }

  /** A string's characters as one-character strings: what Python's `join` iterates over. */
  function Chars(s: string): seq<string> {
    seq(|s|, i requires 0 <= i < |s| => [s[i]])
  }

  /** `aggregates` appears only when truthy, joined with `,` (a string joins its characters). */
  function AggregatesValue(c: Intent): Option<string> {
    match c.aggregates
    case Some(AggList(ns)) => if ns != [] then Some(Join(",", ns)) else None
    case Some(AggText(t)) => if t != "" then Some(Join(",", Chars(t))) else None
    case _ => None
  }

  /** `order` appears only when truthy, written with `str`. */
  function OrderValue(c: Intent): Option<string> {
    if c.order.Some? && Truthy(c.order.value) then Some(PyStr(c.order.value)) else None
  }

  /** `pagesize` always appears: `str` of the given value, or the default. */
  function PagesizeValue(c: Intent): string {
    if c.pagesize.Some? then PyStr(c.pagesize.value) else Decimal(DefaultPagesize)
  }

  /** The parameter names the builder can emit. */
  datatype Key = CutKey | DrilldownKey | AggregatesKey | OrderKey | PagesizeKey

  function Name(k: Key): string {
    match k
    case CutKey => "cut"
    case DrilldownKey => "drilldown"
    case AggregatesKey => "aggregates"
    case OrderKey => "order"
    case PagesizeKey => "pagesize"
  }

  /** The position of a parameter in the order the builder inserts them. */
  function Rank(k: Key): int {
    match k
    case CutKey => 0
    case DrilldownKey => 1
    case AggregatesKey => 2
    case OrderKey => 3
    case PagesizeKey => 4
  }

  function Param(key: Key, value: Option<string>): seq<(Key, string)> {
    if value.Some? then [(key, value.value)] else []
  }

  function CutValueOf(c: Intent): Option<string> {
    var cut := CutParamOf(c.cuts);
    if cut != "" then Some(cut) else None
  }

  /** The query parameters in insertion order. */
  function IncexpParams(c: Intent): seq<(Key, string)> {
    Assemble(CutValueOf(c), DrilldownValue(c), AggregatesValue(c), OrderValue(c), PagesizeValue(c))
  }

  function Assemble(cut: Option<string>, drilldown: Option<string>, aggregates: Option<string>,
                    order: Option<string>, pagesize: string): seq<(Key, string)> {
    Param(CutKey, cut) + (Param(DrilldownKey, drilldown) + (Param(AggregatesKey, aggregates)
    + (Param(OrderKey, order) + [(PagesizeKey, pagesize)])))
  }

  function PairText(p: (Key, string)): string {
    Name(p.0) + "=" + p.1
  }

  /** `&`-joined `k=v` pairs, with no encoding. */
  function EncodeQuery(ps: seq<(Key, string)>): string {
    Join("&", seq(|ps|, i requires 0 <= i < |ps| => PairText(ps[i])))
  }

  function IncexpUrlOf(c: Intent): string {
    Base + CubePath + EndpointText(c) + "?" + EncodeQuery(IncexpParams(c))
  }

  method BuildIncexpUrl(c: Intent) returns (url: string)
    ensures url == IncexpUrlOf(c)
  {
    var endpoint := if c.endpoint.Some? then PyStr(c.endpoint.value) else "facts";
    var path := CubePath + endpoint;
    var params := CollectParams(c);
    var query := EncodeQuery(params);
    url := Base + path + "?" + query;
    AppendAssoc(Base, CubePath, endpoint);
  }

  lemma AppendAssoc(a: string, b: string, c: string)
    ensures a + (b + c) == a + b + c
  {
  }

  /** The parameters the builder inserts, one optional parameter after another. */
  method CollectParams(c: Intent) returns (params: seq<(Key, string)>)
    ensures params == IncexpParams(c)
  {
    params := [];

    var cutVal := BuildCutParam(c.cuts);
    if cutVal != "" {
      params := params + [(CutKey, cutVal)];
    }
    assert params == Param(CutKey, CutValueOf(c));
    if c.drilldown.Some? && c.drilldown.value.DrillList? && c.drilldown.value.names != [] {
      params := params + [(DrilldownKey, Join("|", c.drilldown.value.names))];
    }
    ghost var upToDrilldown := params;
    assert params == Param(CutKey, CutValueOf(c)) + Param(DrilldownKey, DrilldownValue(c));
    match c.aggregates {
      case Some(AggList(ns)) =>
        if ns != [] {
          params := params + [(AggregatesKey, Join(",", ns))];
        }
      case Some(AggText(t)) =>
        if t != "" {
          params := params + [(AggregatesKey, Join(",", Chars(t)))];
        }
      case _ =>
    }
    ghost var upToAggregates := params;
    assert params == upToDrilldown + Param(AggregatesKey, AggregatesValue(c));
    if c.order.Some? && Truthy(c.order.value) {
      params := params + [(OrderKey, PyStr(c.order.value))];
    }
    assert params == upToAggregates + Param(OrderKey, OrderValue(c));
    var pagesize := if c.pagesize.Some? then PyStr(c.pagesize.value) else Decimal(DefaultPagesize);
    params := params + [(PagesizeKey, pagesize)];
    Reassociate(Param(CutKey, CutValueOf(c)), Param(DrilldownKey, DrilldownValue(c)),
      Param(AggregatesKey, AggregatesValue(c)), Param(OrderKey, OrderValue(c)), [(PagesizeKey, PagesizeValue(c))]);
  }

  lemma {:induction false} Regroup<T>(a: seq<T>, ep: seq<T>, mid: seq<T>, q: seq<T>, k: int)
    requires 0 <= k <= |ep|
    ensures a + ep + mid + q == (a + ep[..k]) + (ep[k..] + mid + q)
  {
    assert ep == ep[..k] + ep[k..];
  }

  lemma {:induction false} Reassociate<T>(a: seq<T>, b: seq<T>, c: seq<T>, d: seq<T>, e: seq<T>)
    ensures a + b + c + d + e == a + (b + (c + (d + e)))
  {
  }

  predicate IsHash(c: char) { c == '#' }
  predicate IsQuestion(c: char) { c == '?' }
  predicate IsAmp(c: char) { c == '&' }
  predicate IsEquals(c: char) { c == '=' }

  /** The URL without its fragment. */
  function BeforeFragment(url: string): string {
    url[..IndexOrEnd(url, IsHash)]
  }

  /** Everything before the query: scheme, authority and path. */
  function UrlPath(url: string): string {
    var bf := BeforeFragment(url);
    bf[..IndexOrEnd(bf, IsQuestion)]
  }

  /** The query component, empty when there is no `?`. */
  function UrlQuery(url: string): string {
    var bf := BeforeFragment(url);
    var q := IndexOrEnd(bf, IsQuestion);
    if q == |bf| then "" else bf[q + 1..]
  }

  /** The path mentions `/api/cubes/incexp/` and the query is non-empty. */
  predicate IsValidIncexpUrl(url: string) {
    Contains(UrlPath(url), ApiCubePath) && UrlQuery(url) != ""
  }

  /** Reads one `k=v` item back, splitting at the first `=`. */
  function ParsePair(s: string): (string, string) {
    var i := IndexOrEnd(s, IsEquals);
    if i == |s| then (s, "") else (s[..i], s[i + 1..])
  }

  function ParseQuery(q: string): seq<(string, string)> {
    var items := Split(q, IsAmp);
    seq(|items|, i requires 0 <= i < |items| => ParsePair(items[i]))
  }

  /** The value stored under `key`, if any. */
  function Lookup(ps: seq<(Key, string)>, key: Key): Option<string> {
    if ps == [] then None else if ps[0].0 == key then Some(ps[0].1) else Lookup(ps[1..], key)
  }

  /** Parameter names strictly increase in `Rank`. */
  predicate InOrder(ps: seq<(Key, string)>) {
    forall i, j | 0 <= i < j < |ps| :: Rank(ps[i].0) < Rank(ps[j].0)
  }

  lemma {:induction false} PrependParam(key: Key, value: Option<string>, rest: seq<(Key, string)>)
    requires InOrder(rest)
    requires forall i | 0 <= i < |rest| :: Rank(key) < Rank(rest[i].0)
    ensures InOrder(Param(key, value) + rest)
    ensures forall i | 0 <= i < |Param(key, value) + rest| :: Rank(key) <= Rank((Param(key, value) + rest)[i].0)
  {
  }

  /**
   * The parameters come in the order cut, drilldown, aggregates, order, pagesize, each at most
   * once, and the last is always `pagesize`.
   */
  lemma {:induction false} ParamsInOrder(c: Intent)
    ensures var ps := IncexpParams(c);
      && |ps| >= 1 && ps[|ps| - 1].0 == PagesizeKey
      && InOrder(ps)
  {
    AssembleInOrder(CutValueOf(c), DrilldownValue(c), AggregatesValue(c), OrderValue(c), PagesizeValue(c));
  }

  lemma {:induction false} AssembleInOrder(cut: Option<string>, drilldown: Option<string>, aggregates: Option<string>,
                        order: Option<string>, pagesize: string)
    ensures var ps := Assemble(cut, drilldown, aggregates, order, pagesize);
      && |ps| >= 1 && ps[|ps| - 1].0 == PagesizeKey
      && InOrder(ps)
  {
    var p3 := Param(AggregatesKey, aggregates) + (Param(OrderKey, order) + [(PagesizeKey, pagesize)]);
    var p2 := Param(DrilldownKey, drilldown) + p3;
    var p1 := Param(CutKey, cut) + p2;
    assert Assemble(cut, drilldown, aggregates, order, pagesize) == p1;
    TailInOrder(aggregates, order, pagesize);
    PrependParam(DrilldownKey, drilldown, p3);
    PrependParam(CutKey, cut, p2);
    assert p1[|p1| - 1] == p3[|p3| - 1];
  }

  lemma {:induction false} TailInOrder(aggregates: Option<string>, order: Option<string>, pagesize: string)
    ensures var p3 := Param(AggregatesKey, aggregates) + (Param(OrderKey, order) + [(PagesizeKey, pagesize)]);
      && InOrder(p3) && p3[|p3| - 1].0 == PagesizeKey
      && forall i | 0 <= i < |p3| :: Rank(AggregatesKey) <= Rank(p3[i].0)
  {
    var p5 := [(PagesizeKey, pagesize)];
    var p4 := Param(OrderKey, order) + p5;
    PrependParam(OrderKey, order, p5);
    PrependParam(AggregatesKey, aggregates, p4);
  }

  /** Each parameter carries the value the source computes for it, and only when it should appear. */
  lemma {:induction false} ParamsValues(c: Intent)
    ensures var ps := IncexpParams(c);
      && Lookup(ps, CutKey) == CutValueOf(c)
      && Lookup(ps, DrilldownKey) == DrilldownValue(c)
      && Lookup(ps, AggregatesKey) == AggregatesValue(c)
      && Lookup(ps, OrderKey) == OrderValue(c)
      && Lookup(ps, PagesizeKey) == Some(PagesizeValue(c))
  {
    AssembleValues(CutValueOf(c), DrilldownValue(c), AggregatesValue(c), OrderValue(c), PagesizeValue(c));
  }

  lemma {:induction false} AssembleValues(cut: Option<string>, drilldown: Option<string>, aggregates: Option<string>,
                       order: Option<string>, pagesize: string)
    ensures var ps := Assemble(cut, drilldown, aggregates, order, pagesize);
      && Lookup(ps, CutKey) == cut
      && Lookup(ps, DrilldownKey) == drilldown
      && Lookup(ps, AggregatesKey) == aggregates
      && Lookup(ps, OrderKey) == order
      && Lookup(ps, PagesizeKey) == Some(pagesize)
  {
    var p5 := [(PagesizeKey, pagesize)];
    var p4 := Param(OrderKey, order) + p5;
    var p3 := Param(AggregatesKey, aggregates) + p4;
    var p2 := Param(DrilldownKey, drilldown) + p3;
    var p1 := Param(CutKey, cut) + p2;
    assert Assemble(cut, drilldown, aggregates, order, pagesize) == p1;
    forall k
      ensures Lookup(p1, k) == match k
        case CutKey => cut
        case DrilldownKey => drilldown
        case AggregatesKey => aggregates
        case OrderKey => order
        case PagesizeKey => Some(pagesize)
    {
      LookupPrepend(CutKey, cut, p2, k);
      LookupPrepend(DrilldownKey, drilldown, p3, k);
      LookupPrepend(AggregatesKey, aggregates, p4, k);
      LookupPrepend(OrderKey, order, p5, k);
    }
  }

  lemma {:induction false} LookupPrepend(key: Key, value: Option<string>, rest: seq<(Key, string)>, k: Key)
    ensures Lookup(Param(key, value) + rest, k) == if k == key && value.Some? then value else Lookup(rest, k)
  {
    if value.Some? {
      assert (Param(key, value) + rest)[1..] == rest;
    } else {
      assert Param(key, value) + rest == rest;
    }
  }

  /** With no `pagesize` in the intent, the URL asks for 20 rows. */
  lemma {:induction false} DefaultPagesizeIsTwenty(c: Intent)
    requires c.pagesize.None?
    ensures PagesizeValue(c) == "20"
  {
  }

  /** Reading the query back gives the parameters, when names hold no `&`/`=` and values no `&`. */
  lemma {:induction false} QueryRoundTrip(ps: seq<(Key, string)>)
    requires ps != []
    requires forall i | 0 <= i < |ps| :: Avoids(ps[i].1, IsAmp)
    ensures ParseQuery(EncodeQuery(ps)) == seq(|ps|, i requires 0 <= i < |ps| => (Name(ps[i].0), ps[i].1))
  {
    var items := seq(|ps|, i requires 0 <= i < |ps| => PairText(ps[i]));
    forall i | 0 <= i < |ps| ensures Avoids(items[i], IsAmp) && ParsePair(items[i]) == (Name(ps[i].0), ps[i].1) {
      assert "=" == ['='];
      NamesArePlain(ps[i].0);
      SplitAtSeparator(Name(ps[i].0), '=', ps[i].1, IsEquals);
    }
    assert forall v | v in items :: Avoids(v, IsAmp);
    assert "&" == ['&'];
    SplitJoin('&', IsAmp, items);
  }

  /** Parameter names are lower-case words, so they hold no query separator. */
  lemma {:induction false} NamesArePlain(k: Key)
    ensures Avoids(Name(k), IsAmp) && Avoids(Name(k), IsEquals) && Avoids(Name(k), IsHash)
    ensures Name(k) != [] && forall c | c in Name(k) :: 'a' <= c <= 'z'
  {
  }

  lemma {:induction false} PrefixPlain()
    ensures Avoids(Base + CubePath, IsHash) && Avoids(Base + CubePath, IsQuestion)
  {
  }

  lemma {:induction false} PrefixFacts()
    ensures Avoids(Base + CubePath, IsHash) && Avoids(Base + CubePath, IsQuestion)
    ensures |Base + CubePath| == 55 && (Base + CubePath)[37..55] == ApiCubePath
  {
    PrefixPlain();
  }

  /**
   * A URL of the builder's shape passes the validator whenever the endpoint holds no `#` and the
   * query does not start with one.
   */
  lemma {:induction false} BuiltShapeIsValid(ep: string, query: string)
    requires Avoids(ep, IsHash)
    requires query != [] && query[0] != '#'
    ensures IsValidIncexpUrl(Base + CubePath + ep + "?" + query)
  {
    PrefixFacts();
    var a := Base + CubePath;
    var p := a + ep + "?";
    assert Avoids(p, IsHash);
    FragmentAfterPrefix(p, query);
    var url := p + query;
    assert a + ep + "?" + query == url;
    var t := query[..IndexOrEnd(url, IsHash) - |p|];
    assert BeforeFragment(url) == a + (ep + "?" + t);
    QueryAfterPrefix(a, ep, t);
  }

  /** The first `#` of `p + query` lies past `p`, and not at the start of `query`. */
  lemma {:induction false} FragmentAfterPrefix(p: string, query: string)
    requires Avoids(p, IsHash)
    requires query != [] && query[0] != '#'
    ensures |p| < IndexOrEnd(p + query, IsHash)
    ensures BeforeFragment(p + query) == p + query[..IndexOrEnd(p + query, IsHash) - |p|]
  {
    assert forall j | 0 <= j < |p| :: p[j] in p;
    IndexOrEndSkips(p, query, IsHash);
  }

  /** The first `?` of the text lies after the prefix and before the last character. */
  lemma {:induction false} QueryAfterPrefix(a: string, ep: string, t: string)
    requires Avoids(a, IsQuestion) && |a| == 55 && a[37..55] == ApiCubePath
    requires t != []
    ensures var bf := a + (ep + "?" + t);
      var q := IndexOrEnd(bf, IsQuestion);
      && |a| <= q < |bf| - 1
      && Contains(bf[..q], ApiCubePath)
  {
    var rest := ep + "?" + t;
    assert forall j | 0 <= j < |a| :: a[j] in a;
    IndexOrEndSkips(a, rest, IsQuestion);
    assert rest[|ep|] == '?';
    var bf := a + rest;
    var q := IndexOrEnd(bf, IsQuestion);
    assert bf[37..55] == a[37..55];
    assert bf[..q][37..55] == bf[37..55];
    assert OccursAt(bf[..q], ApiCubePath, 37);
  }

  /** Every URL the builder produces passes the validator when the endpoint holds no `#`. */
  lemma {:induction false} BuiltUrlIsValid(c: Intent)
    requires Avoids(EndpointText(c), IsHash)
    ensures IsValidIncexpUrl(IncexpUrlOf(c))
  {
    var ps := IncexpParams(c);
    var items := seq(|ps|, i requires 0 <= i < |ps| => PairText(ps[i]));
    ParamsInOrder(c);
    assert |items| >= 1;
    NamesArePlain(ps[0].0);
    assert items[0][0] == Name(ps[0].0)[0];
    JoinStartsWithFirst("&", items);
    BuiltShapeIsValid(EndpointText(c), EncodeQuery(ps));
  }

  lemma {:induction false} JoinStartsWithFirst(sep: string, parts: seq<string>)
    requires parts != [] && parts[0] != []
    ensures Join(sep, parts) != [] && Join(sep, parts)[0] == parts[0][0]
  {
  }

  /** A `#` in the endpoint before any `?` cuts the query off, so the validator refuses the URL. */
  lemma {:induction false} FragmentInEndpointRejected(c: Intent)
    requires var ep := EndpointText(c);
      IndexOrEnd(ep, IsHash) < |ep| && IndexOrEnd(ep, IsHash) <= IndexOrEnd(ep, IsQuestion)
    ensures !IsValidIncexpUrl(IncexpUrlOf(c))
  {
    FragmentShapeRejected(EndpointText(c), EncodeQuery(IncexpParams(c)));
  }

  lemma {:induction false} FragmentShapeRejected(ep: string, q: string)
    requires IndexOrEnd(ep, IsHash) < |ep| && IndexOrEnd(ep, IsHash) <= IndexOrEnd(ep, IsQuestion)
    ensures !IsValidIncexpUrl(Base + CubePath + ep + "?" + q)
  {
    PrefixPlain();
    FragmentCut(Base + CubePath, ep, q);
  }

  lemma {:induction false} FragmentCut(a: string, ep: string, q: string)
    requires Avoids(a, IsHash) && Avoids(a, IsQuestion)
    requires IndexOrEnd(ep, IsHash) < |ep| && IndexOrEnd(ep, IsHash) <= IndexOrEnd(ep, IsQuestion)
    ensures !IsValidIncexpUrl(a + ep + "?" + q)
  {
    var k := IndexOrEnd(ep, IsHash);
    var rest := ep[k..] + "?" + q;
    assert rest[0] == '#' by {
      assert ep[k..][0] == ep[k];
    }
    Regroup(a, ep, "?", q, k);
    assert Avoids(ep[..k], IsHash) && Avoids(ep[..k], IsQuestion) by {
      assert forall ch | ch in ep[..k] :: exists j | 0 <= j < k :: ep[j] == ch;
    }
    CutAtHash(a + ep[..k], rest);
  }

  /** A URL whose first `#` comes before any `?` has an empty query. */
  lemma {:induction false} CutAtHash(pre: string, rest: string)
    requires Avoids(pre, IsHash) && Avoids(pre, IsQuestion)
    requires rest != [] && rest[0] == '#'
    ensures !IsValidIncexpUrl(pre + rest)
  {
    assert forall j | 0 <= j < |pre| :: pre[j] in pre;
    IndexOrEndSkips(pre, rest, IsHash);
    assert BeforeFragment(pre + rest) == pre;
  }

  /** Text without `?` has no query, so the validator refuses it. */
  lemma {:induction false} NoQueryRejected(url: string)
    requires '?' !in url
    ensures !IsValidIncexpUrl(url)
  {
    var bf := BeforeFragment(url);
    assert forall ch | ch in bf :: ch in url;
    assert IndexOrEnd(bf, IsQuestion) == |bf|;
  }
}
