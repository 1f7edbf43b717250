/**
 * The small part of JavaScript's value semantics that the application's
 * decisions depend on: truthiness, `Number(...)`, `String(...)`, strict
 * equality, `??` and `||`, and the string operations the search boxes use
 * (`toLowerCase`, `includes`, `trim`, `startsWith`).
 *
 * Numbers are integers only: the application's numeric values are row ids,
 * role ids and amounts, and no modelled decision depends on a fraction.
 */
module Js {

  datatype Option<T> = None | Some(value: T)

  /** A JavaScript number as far as the application can observe it. */
  datatype JsNumber = NaN | Num(n: int)

  /** The JSON-level values that flow through storage, requests and rows. */
  datatype JsValue = Undefined | Null | Number(num: JsNumber) | Str(s: string)

  /** A parsed JSON object: a missing key reads as `undefined`. */
  type Object = map<string, JsValue>

  function Get(o: Object, key: string): (v: JsValue)
    ensures key !in o ==> v == Undefined
  {
    if key in o then o[key] else Undefined
  }

  // ---------------------------------------------------------------------
  // Truthiness, equality, operators

  predicate NumberTruthy(x: JsNumber) {
    x.Num? && x.n != 0
  }

  /** `Boolean(v)`: null, undefined, NaN, 0 and "" are the falsy values. */
  predicate Truthy(v: JsValue) {
    match v
    case Undefined => false
    case Null => false
    case Number(x) => NumberTruthy(x)
    case Str(s) => s != ""
  }

  /** `v == null` (loose): true exactly for null and undefined. */
  predicate IsNullish(v: JsValue) {
    v.Undefined? || v.Null?
  }

  /** `a === b` on numbers: NaN equals nothing, not even itself. */
  predicate NumberStrictEquals(a: JsNumber, b: JsNumber) {
    a.Num? && b.Num? && a.n == b.n
  }

  /** `a === b`: same type and same value, with NaN unequal to itself. */
  predicate StrictEquals(a: JsValue, b: JsValue) {
    match (a, b)
    case (Undefined, Undefined) => true
    case (Null, Null) => true
    case (Number(x), Number(y)) => NumberStrictEquals(x, y)
    case (Str(s), Str(t)) => s == t
    case _ => false
  }

  /** `a ?? b` */
  function Coalesce(a: JsValue, b: JsValue): (r: JsValue)
    ensures !IsNullish(a) ==> r == a
    ensures IsNullish(a) ==> r == b
  {
    if IsNullish(a) then b else a
  }

  /** `a || b` */
  function OrElse(a: JsValue, b: JsValue): (r: JsValue)
    ensures Truthy(a) ==> r == a
    ensures !Truthy(a) ==> r == b
  {
    if Truthy(a) then a else b
  }

  /**
   * `a || b` over tests that may throw (None): b is evaluated only when
   * a is false, and a throw in a is a throw of the whole.
   */
  function OrThen(a: Option<bool>, b: Option<bool>): (r: Option<bool>)
    ensures a == Some(true) ==> r == Some(true)
    ensures a == Some(false) ==> r == b
    ensures a.None? ==> r.None?
  {
    match a
    case Some(x) => if x then Some(true) else b
    case None => None
  }

  /** `Number(v)` */
  function ToNumber(v: JsValue): JsNumber {
    match v
    case Undefined => NaN
    case Null => Num(0)
    case Number(x) => x
    case Str(s) => ParseNumber(s)
  }

  /** `String(v)`; also what `localStorage.setItem` stores for `v`. */
  function ToStr(v: JsValue): string {
    match v
    case Undefined => "undefined"
    case Null => "null"
    case Number(NaN) => "NaN"
    case Number(Num(n)) => IntToString(n)
    case Str(s) => s
  }

  lemma StrictEqualsReflexiveUnlessNaN(v: JsValue)
    ensures StrictEquals(v, v) <==> v != Number(NaN)
  {
  }

  // ---------------------------------------------------------------------
  // Decimal digits

  predicate IsDigit(c: char) {
    '0' <= c <= '9'
  }

  predicate AllDigits(s: string) {
    forall i :: 0 <= i < |s| ==> IsDigit(s[i])
  }

  function DigitChar(d: nat): (c: char)
    requires d < 10
    ensures IsDigit(c) && c as int - '0' as int == d
  {
    ('0' as int + d) as char
  }

  function DigitValue(c: char): (d: nat)
    requires IsDigit(c)
    ensures d < 10
  {
    c as int - '0' as int
  }

  /** The value of a string of decimal digits, most significant first. */
  function DigitsValue(s: string): nat
    requires AllDigits(s)
    decreases |s|
  {
    if s == [] then 0 else DigitsValue(s[..|s| - 1]) * 10 + DigitValue(s[|s| - 1])
  }

  /** The shortest decimal spelling of a natural number. */
  function NatToDigits(n: nat): (s: string)
    ensures s != [] && AllDigits(s)
    ensures |s| > 1 ==> s[0] != '0'
    decreases n
  {
    if n < 10 then [DigitChar(n)] else NatToDigits(n / 10) + [DigitChar(n % 10)]
  }

  /** `String(n)` for an integer n. */
  function IntToString(n: int): (s: string)
    ensures s != []
  {
    if n < 0 then "-" + NatToDigits(-n) else NatToDigits(n)
  }

  lemma {:induction false} DigitsValueOfNatToDigits(n: nat)
    ensures DigitsValue(NatToDigits(n)) == n
    decreases n
  {
    if n >= 10 {
      var s := NatToDigits(n);
      assert s[..|s| - 1] == NatToDigits(n / 10);
      DigitsValueOfNatToDigits(n / 10);
    }
  }

  // ---------------------------------------------------------------------
  // Whitespace and trim

  predicate IsSpace(c: char) {
    c == ' ' || c == '\t' || c == '\n' || c == '\r' || c == '\U{000B}' || c == '\U{000C}'
  }

  function TrimStart(s: string): (r: string)
    ensures |r| <= |s| && r == s[|s| - |r|..]
    ensures r != [] ==> !IsSpace(r[0])
    ensures forall i :: 0 <= i < |s| - |r| ==> IsSpace(s[i])
    decreases |s|
  {
    if s != [] && IsSpace(s[0]) then TrimStart(s[1..]) else s
  }

  function TrimEnd(s: string): (r: string)
    ensures |r| <= |s| && r == s[..|r|]
    ensures r != [] ==> !IsSpace(r[|r| - 1])
    ensures forall i :: |r| <= i < |s| ==> IsSpace(s[i])
    decreases |s|
  {
    if s != [] && IsSpace(s[|s| - 1]) then TrimEnd(s[..|s| - 1]) else s
  }

  /** `s.trim()`: drop leading and trailing white space. */
  function Trim(s: string): (r: string)
    ensures r == [] || (!IsSpace(r[0]) && !IsSpace(r[|r| - 1]))
  {
    TrimEnd(TrimStart(s))
  }

  lemma TrimOfUnspaced(s: string)
    requires s == [] || (!IsSpace(s[0]) && !IsSpace(s[|s| - 1]))
    ensures Trim(s) == s
  {
  }

  // ---------------------------------------------------------------------
  // Number(string)

  /**
   * `Number(s)` for a string: white space around the text is ignored, an
   * empty or blank string is 0, an optionally signed run of decimal digits
   * is its value, and anything else is NaN.
   */
  function ParseNumber(s: string): JsNumber {
    var t := Trim(s);
    if t == [] then Num(0)
    else if AllDigits(t) then Num(DigitsValue(t))
    else if |t| > 1 && (t[0] == '-' || t[0] == '+') && AllDigits(t[1..]) then
      (if t[0] == '-' then Num(0 - DigitsValue(t[1..])) else Num(DigitsValue(t[1..])))
    else NaN
  }

  /** Printing an integer and reading it back gives the same number. */
  lemma NumberOfIntToString(n: int)
    ensures ParseNumber(IntToString(n)) == Num(n)
  {
    var s := IntToString(n);
    if n < 0 {
      var d := NatToDigits(-n);
      assert s == "-" + d && s[1..] == d;
      assert !AllDigits(s) by { assert !IsDigit(s[0]); }
      TrimOfUnspaced(s);
      DigitsValueOfNatToDigits(-n);
    } else {
      TrimOfUnspaced(s);
      DigitsValueOfNatToDigits(n);
    }
  }

  /** `Number(String(v))` gives back a number value that was stored as a string. */
  lemma NumberOfStoredNumber(x: JsNumber)
    ensures ToNumber(Str(ToStr(Number(x)))) == x
  {
    match x
    case NaN =>
      assert ToStr(Number(x)) == "NaN";
      TrimOfUnspaced("NaN");
      assert !AllDigits("NaN") by { assert !IsDigit("NaN"[0]); }
    case Num(n) => NumberOfIntToString(n);
  }

  // ---------------------------------------------------------------------
  // Case and substrings

  function LowerChar(c: char): char {
    if 'A' <= c <= 'Z' then (c as int - 'A' as int + 'a' as int) as char else c
  }

  /** `s.toLowerCase()`, on ASCII letters. */
  function Lower(s: string): (r: string)
    ensures |r| == |s|
    ensures forall i :: 0 <= i < |s| ==> r[i] == LowerChar(s[i])
  {
    seq(|s|, i requires 0 <= i < |s| => LowerChar(s[i]))
  }

  lemma LowerIdempotent(s: string)
    ensures Lower(Lower(s)) == Lower(s)
  {
  }

  predicate IsPrefix(p: string, s: string) {
    |p| <= |s| && s[..|p|] == p
  }

  /** `p.startsWith` as a free function: `StartsWith(s, p)` is `s.startsWith(p)`. */
  predicate StartsWith(s: string, p: string) {
    IsPrefix(p, s)
  }

  /** `h.includes(n)`: n occurs in h at some position. */
  predicate Includes(h: string, n: string)
    decreases |h|
  {
    IsPrefix(n, h) || (h != [] && Includes(h[1..], n))
  }

  /** n occurs in h starting at position i. */
  predicate OccursAt(h: string, n: string, i: int) {
    0 <= i <= |h| - |n| && h[i..i + |n|] == n
  }

  /** `Includes` agrees with the positional definition of a substring. */
  lemma {:induction false} IncludesIffOccurs(h: string, n: string)
    ensures Includes(h, n) <==> exists i :: OccursAt(h, n, i)
    decreases |h|
  {
    if IsPrefix(n, h) {
      assert OccursAt(h, n, 0);
    } else if h == [] {
    } else {
      IncludesIffOccurs(h[1..], n);
      if exists i :: OccursAt(h, n, i) {
        var i :| OccursAt(h, n, i);
        assert i != 0;
        assert OccursAt(h[1..], n, i - 1);
      }
      if exists j :: OccursAt(h[1..], n, j) {
        var j :| OccursAt(h[1..], n, j);
        assert OccursAt(h, n, j + 1);
      }
    }
  }

  /** Every string includes the empty string: an empty search matches all. */
  lemma {:induction false} IncludesEmpty(h: string)
    ensures Includes(h, "")
  {
    assert IsPrefix("", h);
  }

  /** `a.toLowerCase().includes(b.toLowerCase())`, the search boxes' test. */
  predicate CiIncludes(field: string, term: string) {
    Includes(Lower(field), Lower(term))
  }

  lemma CiIncludesEmpty(field: string)
    ensures CiIncludes(field, "")
  {
    IncludesEmpty(Lower(field));
  }

  lemma {:induction false} IncludesSelf(h: string)
    ensures Includes(h, h)
  {
    assert IsPrefix(h, h);
  }

  /** A term occurs case-insensitively in any field that equals it up to case. */
  lemma CiIncludesSameLower(field: string, term: string)
    requires Lower(field) == Lower(term)
    ensures CiIncludes(field, term)
  {
    IncludesSelf(Lower(field));
  }

  /** A longer needle is harder to find: whatever includes t + u includes t. */
  lemma IncludesExtend(h: string, t: string, u: string)
    requires Includes(h, t + u)
    ensures Includes(h, t)
  {
    IncludesIffOccurs(h, t + u);
    var i :| OccursAt(h, t + u, i);
    assert h[i..i + |t|] == (t + u)[..|t|] == t;
    IncludesIffOccurs(h, t);
  }

  /** Typing more of the search term never brings a field back: the search only narrows. */
  lemma CiIncludesExtend(field: string, t: string, u: string)
    requires CiIncludes(field, t + u)
    ensures CiIncludes(field, t)
  {
    assert Lower(t + u) == Lower(t) + Lower(u);
    IncludesExtend(Lower(field), Lower(t), Lower(u));
  }

  /**
   * `v.toLowerCase().includes(term.toLowerCase())` on a value read from a
   * row: text answers; null, undefined and numbers have no `toLowerCase`
   * and throw (None).
   */
  function LowerIncludes(v: JsValue, term: string): (r: Option<bool>)
    ensures r.Some? <==> v.Str?
    ensures r.Some? ==> r.value == CiIncludes(v.s, term)
  {
    match v
    case Str(s) => Some(CiIncludes(s, term))
    case _ => None
  }

  /** `v.toString()`: null and undefined throw (None); any other value gives its text. */
  function CallToString(v: JsValue): (r: Option<string>)
    ensures r.None? <==> IsNullish(v)
    ensures r.Some? ==> r.value == ToStr(v)
  {
    if IsNullish(v) then None else Some(ToStr(v))
  }
}
