/** Option and Result, used for the source's `None` returns and raised errors. */
module Wrappers {
  datatype Option<+T> = None | Some(value: T)

  datatype Result<+R, +E> = Success(value: R) | Failure(error: E)
}

/** Character classes and the handful of Python string operations the core relies on. */
module Text {

  /** `str.isdigit` restricted to ASCII, and the `\d` of the source's regular expressions. */
  predicate IsDigit(c: char) { '0' <= c <= '9' }

  /** Python's `s.isdigit()`: non-empty and every character a digit. */
  predicate IsDigits(s: string) {
    |s| > 0 && forall i | 0 <= i < |s| :: IsDigit(s[i])
  }

  /** A word character for `\b`: ASCII letter, digit or underscore. */
  predicate IsWordChar(c: char) {
    'a' <= c <= 'z' || 'A' <= c <= 'Z' || IsDigit(c) || c == '_'
  }

  /** `\b` before a word character at `i`. */
  predicate BoundaryBefore(s: string, i: nat)
    requires i <= |s|
  {
    i == 0 || !IsWordChar(s[i - 1])
  }

  /** `\b` after a word character that ends at `j`. */
  predicate BoundaryAfter(s: string, j: nat)
    requires j <= |s|
  {
    j == |s| || !IsWordChar(s[j])
  }

  predicate IsComma(c: char) { c == ',' }

  /** Python's `str.isspace`, which both `str.strip()` and `\s` use. */
  predicate IsSpace(c: char) {
    c == ' ' || '\t' <= c <= '\r' || '\U{1C}' <= c <= '\U{1F}' || c == '\U{85}' || c == '\U{A0}'
    || c == '\U{1680}' || '\U{2000}' <= c <= '\U{200A}' || c == '\U{2028}' || c == '\U{2029}'
    || c == '\U{202F}' || c == '\U{205F}' || c == '\U{3000}'
  }

  function DigitValue(c: char): int
    requires IsDigit(c)
  {
    c as int - '0' as int
  }

  function DigitChar(d: int): (c: char)
    requires 0 <= d < 10
    ensures IsDigit(c) && DigitValue(c) == d
  {
    ('0' as int + d) as char
  }

  /** Python's `str(n)` for a natural number. */
  function Decimal(n: nat): (s: string)
    ensures IsDigits(s)
    decreases n
  {
    if n < 10 then [DigitChar(n)] else Decimal(n / 10) + [DigitChar(n % 10)]
  }

  /** Python's `int(s)` for a string of ASCII digits. */
  function Number(s: string): nat
    requires forall i | 0 <= i < |s| :: IsDigit(s[i])
  {
    if s == [] then 0 else 10 * Number(s[..|s| - 1]) + DigitValue(s[|s| - 1])
  }

  /** `int(str(n)) == n`. */
  lemma {:induction false} NumberOfDecimal(n: nat)
    ensures Number(Decimal(n)) == n
    decreases n
  {
    if n >= 10 {
      var s := Decimal(n);
      assert s[..|s| - 1] == Decimal(n / 10);
      NumberOfDecimal(n / 10);
    }
  }

  /** Python's `str(i)` for any integer. */
  function IntText(i: int): string {
    if i < 0 then "-" + Decimal(-i) else Decimal(i)
  }

  /** Drops the leading characters for which `drop` holds. */
  function TrimStart(s: string, drop: char -> bool): (r: string)
    ensures |r| <= |s|
    ensures r != [] ==> !drop(r[0])
    ensures forall i | 0 <= i < |s| - |r| :: drop(s[i])
  {
    if s != [] && drop(s[0]) then TrimStart(s[1..], drop) else s
  }

  /** Drops the trailing characters for which `drop` holds. */
  function TrimEnd(s: string, drop: char -> bool): (r: string)
    ensures |r| <= |s|
    ensures r != [] ==> !drop(r[|r| - 1])
    ensures forall i | |r| <= i < |s| :: drop(s[i])
  {
    if s != [] && drop(s[|s| - 1]) then TrimEnd(s[..|s| - 1], drop) else s
  }

  /** Python's `s.strip(chars)`, with `drop` the set of characters to strip. */
  function Trim(s: string, drop: char -> bool): (r: string)
    ensures |r| <= |s|
    ensures forall c | c in r :: c in s
    ensures r != [] ==> !drop(r[0]) && !drop(r[|r| - 1])
    ensures s == [] || (!drop(s[0]) && !drop(s[|s| - 1])) ==> r == s
  {
    TrimStartSuffix(s, drop);
    TrimEndPrefix(TrimStart(s, drop), drop);
    TrimEnd(TrimStart(s, drop), drop)
  }

  lemma {:induction false} TrimStartSuffix(s: string, drop: char -> bool)
    ensures TrimStart(s, drop) == s[|s| - |TrimStart(s, drop)|..]
  {
    if s != [] && drop(s[0]) {
      TrimStartSuffix(s[1..], drop);
    }
  }

  lemma {:induction false} TrimEndPrefix(s: string, drop: char -> bool)
    ensures TrimEnd(s, drop) == s[..|TrimEnd(s, drop)|]
  {
    if s != [] && drop(s[|s| - 1]) {
      TrimEndPrefix(s[..|s| - 1], drop);
    }
  }

  /** Python's `s.strip()`. */
  function Strip(s: string): string {
    Trim(s, IsSpace)
  }

  /** Python's `sep.join(parts)`. */
  function Join(sep: string, parts: seq<string>): string {
    if parts == [] then "" else if |parts| == 1 then parts[0] else parts[0] + sep + Join(sep, parts[1..])
  }

  /** The position of the first character of `s` satisfying `p`, or `|s|` when there is none. */
  function IndexOrEnd(s: string, p: char -> bool): (i: nat)
    ensures i <= |s|
    ensures forall j | 0 <= j < i :: !p(s[j])
    ensures i < |s| ==> p(s[i])
  {
    if s == [] then 0 else if p(s[0]) then 0 else 1 + IndexOrEnd(s[1..], p)
  }

  /**
   * Python's `s.split(c)` for one separator character, and `re.split('[...]', s)` for a
   * character class: the pieces between separators, always at least one.
   */
  function Split(s: string, isSep: char -> bool): (parts: seq<string>)
    ensures |parts| >= 1
    ensures forall k | 0 <= k < |parts| :: forall j | 0 <= j < |parts[k]| :: !isSep(parts[k][j])
    decreases |s|
  {
    var i := IndexOrEnd(s, isSep);
    if i == |s| then [s] else [s[..i]] + Split(s[i + 1..], isSep)
  }

  /** The pieces of a split hold only characters of the text. */
  lemma {:induction false} SplitChars(s: string, isSep: char -> bool)
    ensures forall k | 0 <= k < |Split(s, isSep)| :: forall c | c in Split(s, isSep)[k] :: c in s
    decreases |s|
  {
    var i := IndexOrEnd(s, isSep);
    if i < |s| {
      SplitChars(s[i + 1..], isSep);
      assert forall c | c in s[i + 1..] :: c in s;
      assert forall c | c in s[..i] :: c in s;
    }
  }

  /** No character of `s` satisfies `p`. */
  predicate Avoids(s: string, p: char -> bool) {
    forall c | c in s :: !p(c)
  }

  /** Joining parts that avoid `p` with a separator that avoids `p` gives text that avoids `p`. */
  lemma {:induction false} JoinAvoids(sep: string, parts: seq<string>, p: char -> bool)
    requires Avoids(sep, p)
    requires forall v | v in parts :: Avoids(v, p)
    ensures Avoids(Join(sep, parts), p)
  {
    if |parts| > 1 {
      assert forall v | v in parts[1..] :: v in parts;
      JoinAvoids(sep, parts[1..], p);
      assert parts[0] in parts;
      var rest := Join(sep, parts[1..]);
      assert Join(sep, parts) == parts[0] + sep + rest;
      assert forall c | c in parts[0] + sep + rest :: c in parts[0] || c in sep || c in rest;
    } else if |parts| == 1 {
      assert parts[0] in parts;
    }
  }

  /** `sub in s` for strings. */
  predicate Contains(s: string, sub: string) {
    exists i | 0 <= i <= |s| - |sub| :: OccursAt(s, sub, i)
  }

  predicate OccursAt(s: string, sub: string, i: int) {
    0 <= i <= |s| - |sub| && s[i..i + |sub|] == sub
  }

  /** The first separator of `a + rest` lies in `rest` when `a` holds none. */
  lemma {:induction false} IndexOrEndSkips(a: string, rest: string, p: char -> bool)
    requires forall j | 0 <= j < |a| :: !p(a[j])
    ensures IndexOrEnd(a + rest, p) == |a| + IndexOrEnd(rest, p)
  {
    if a != [] {
      assert (a + rest)[1..] == a[1..] + rest;
      IndexOrEndSkips(a[1..], rest, p);
    } else {
      assert a + rest == rest;
    }
  }

  /** Splitting at the first separator. */
  lemma {:induction false} SplitAtFirst(a: string, rest: string, sep: char, isSep: char -> bool)
    requires isSep(sep)
    requires forall j | 0 <= j < |a| :: !isSep(a[j])
    ensures Split(a, isSep) == [a]
    ensures Split(a + [sep] + rest, isSep) == [a] + Split(rest, isSep)
  {
    IndexOrEndSkips(a, [], isSep);
    assert a + [] == a;
    var s := a + [sep] + rest;
    assert s == a + ([sep] + rest);
    IndexOrEndSkips(a, [sep] + rest, isSep);
    assert s[..|a|] == a;
    assert s[|a| + 1..] == rest;
  }

  /** In `d + [sep] + rest` with no separator in `d`, the first separator is the one after `d`. */
  lemma {:induction false} SplitAtSeparator(d: string, sep: char, rest: string, p: char -> bool)
    requires p(sep) && Avoids(d, p)
    ensures var s := d + [sep] + rest;
      IndexOrEnd(s, p) == |d| && s[..|d|] == d && s[|d| + 1..] == rest
  {
    var s := d + [sep] + rest;
    assert s == d + ([sep] + rest);
    assert forall i | 0 <= i < |d| :: d[i] in d;
    IndexOrEndSkips(d, [sep] + rest, p);
  }

  /** `Split` undoes `Join` when no part contains a separator. */
  lemma {:induction false} SplitJoin(sep: char, isSep: char -> bool, parts: seq<string>)
    requires isSep(sep)
    requires forall k | 0 <= k < |parts| :: Avoids(parts[k], isSep)
    requires |parts| >= 1
    ensures Split(Join([sep], parts), isSep) == parts
  {
    var first := parts[0];
    assert forall j | 0 <= j < |first| :: !isSep(first[j]) by {
      assert Avoids(first, isSep);
      assert forall j | 0 <= j < |first| :: first[j] in first;
    }
    if |parts| == 1 {
      SplitAtFirst(first, [], sep, isSep);
    } else {
      var rest := parts[1..];
      assert forall k | 0 <= k < |rest| :: Avoids(rest[k], isSep) by {
        assert forall k | 0 <= k < |rest| :: rest[k] == parts[k + 1];
      }
      SplitJoin(sep, isSep, rest);
      SplitAtFirst(first, Join([sep], rest), sep, isSep);
      assert Join([sep], parts) == first + [sep] + Join([sep], rest);
    }
  }
}
