/**
 * The JavaScript values that reach the core: callers' arguments (`mode`,
 * `sessionId`, `message`) and the result of `JSON.parse` on an event's data.
 * Arrays, non-integral numbers and the infinities are not represented; a
 * number is an unbounded integer. An object is an ordinary object whose
 * `toString` is either the inherited `Object.prototype.toString` or an own
 * member that is not a function, as every member `JSON.parse` creates is.
 */
module JsValues {
  import opened Wrappers

  datatype JsValue =
    | Undefined
    | Null
    | Bool(b: bool)
    | Number(n: int)
    | NaN
    | Str(s: string)
    | PlainObject(ownToString: bool)

  /** The values ToBoolean (section 7.1.2 of ECMA-262) maps to `false`. */
  const FalsyValues: set<JsValue> := {Undefined, Null, Bool(false), Number(0), NaN, Str("")}

  /** JavaScript truthiness: the test behind `x ? a : b`, `if (x)` and `!x`. */
  predicate Truthy(v: JsValue)
    ensures Truthy(v) <==> v !in FalsyValues
  {
    match v
    case Undefined => false
    case Null => false
    case Bool(b) => b
    case Number(n) => n != 0
    case NaN => false
    case Str(s) => s != ""
    case PlainObject(_) => true
  }

  predicate IsDigit(c: char) {
    '0' <= c <= '9'
  }

  function DigitValue(c: char): (d: nat)
    requires IsDigit(c)
    ensures d < 10
  {
    (c as int) - ('0' as int)
  }

  function DigitChar(d: nat): (c: char)
    requires d < 10
    ensures IsDigit(c) && DigitValue(c) == d
  {
    ('0' as int + d) as char
  }

  predicate AllDigits(s: string) {
    forall i :: 0 <= i < |s| ==> IsDigit(s[i])
  }

  /** The decimal numeral of `n`: its digits, most significant first, with no leading zero. */
  function DecimalText(n: nat): (r: string)
    ensures |r| >= 1 && AllDigits(r)
    ensures r[0] == '0' ==> n == 0
    ensures r[|r| - 1] == DigitChar(n % 10)
    ensures n >= 10 ==> |r| >= 2
    decreases n
  {
    if n < 10 then [DigitChar(n)] else DecimalText(n / 10) + [DigitChar(n % 10)]
  }

  /** The number a string of decimal digits denotes (most significant first). */
  function DigitsValue(s: string): nat
    requires AllDigits(s)
  {
    if s == [] then 0
    else DigitsValue(s[..|s| - 1]) * 10 + DigitValue(s[|s| - 1])
  }

  /** Reading the decimal numeral of `n` back yields `n`. */
  lemma {:induction false} DecimalRoundTrip(n: nat)
    ensures DigitsValue(DecimalText(n)) == n
    decreases n
  {
    if n >= 10 {
      var r := DecimalText(n);
      assert r[..|r| - 1] == DecimalText(n / 10);
      DecimalRoundTrip(n / 10);
    }
  }

  /** `v` followed by `k` zeros: v * 10^k. */
  function Scaled(v: nat, k: nat): (r: nat)
    ensures r >= v
  {
    if k == 0 then v else 10 * Scaled(v, k - 1)
  }

  /**
   * From 10^21 on, Number::toString of ECMAScript writes a number in
   * exponent notation instead of as a plain numeral.
   */
  const ExponentThreshold: int := Scaled(1, 21)

  /** `n` split into its significant part and its count of trailing zeros. */
  function Significand(n: nat): (r: (nat, nat))
    requires n > 0
    ensures r.0 > 0 && r.0 % 10 != 0 && Scaled(r.0, r.1) == n
    decreases n
  {
    if n % 10 == 0 then
      var (m, z) := Significand(n / 10);
      (m, z + 1)
    else (n, 0)
  }

  /** The mantissa of exponent notation: the digits `d` with a point after the first one, if there are several. */
  function Mantissa(d: string): string
    requires |d| >= 1
  {
    if |d| == 1 then d else [d[0]] + "." + d[1..]
  }

  /**
   * Exponent notation of Number::toString for `m` followed by `z` zeros:
   * the mantissa of the digits of `m`, then `e+` and the power of ten of
   * the first digit.
   */
  function ScientificText(m: nat, z: nat): string {
    var d := DecimalText(m);
    Mantissa(d) + "e+" + DecimalText(|d| - 1 + z)
  }

  /** Exponent notation of `n`, written from its significant digits. */
  function ExponentText(n: nat): string
    requires n > 0
  {
    var p := Significand(n);
    ScientificText(p.0, p.1)
  }

  /** The position of the first `e` in `s`, or `|s|` when there is none. */
  function IndexOfE(s: string): (i: nat)
    ensures i <= |s| && (i < |s| ==> s[i] == 'e')
    ensures forall j :: 0 <= j < i ==> s[j] != 'e'
  {
    if s == [] || s[0] == 'e' then 0
    else
      var i := IndexOfE(s[1..]);
      assert forall j :: 1 <= j < i + 1 ==> s[j] == s[1..][j - 1];
      1 + i
  }

  /** Reads a mantissa `d` or `d.ddd` as its digits without the point; `None` for text of any other shape. */
  function ReadMantissa(m: string): (r: Option<string>)
    ensures r.Some? ==> |r.value| >= 1 && AllDigits(r.value)
  {
    if m == [] || !IsDigit(m[0]) then None
    else if |m| == 1 then Some(m)
    else if |m| == 2 || m[1] != '.' || !AllDigits(m[2..]) then None
    else
      var digits := [m[0]] + m[2..];
      assert forall j :: 1 <= j < |digits| ==> digits[j] == m[2..][j - 1];
      Some(digits)
  }

  /** The integer the digits `d` of a mantissa and an exponent `x` denote; `None` for a fraction. */
  function Denoted(d: string, x: string): Option<nat>
    requires |d| >= 1 && AllDigits(d) && AllDigits(x)
  {
    var e := DigitsValue(x);
    if e < |d| - 1 then None else Some(Scaled(DigitsValue(d), e - (|d| - 1)))
  }

  /**
   * Reads text of the shape `d[.ddd]e+ddd` back as the integer it denotes;
   * `None` for text of any other shape or denoting a fraction.
   */
  function ReadExponent(s: string): Option<nat> {
    var i := IndexOfE(s);
    if i + 2 > |s| || s[i + 1] != '+' || s[i + 2..] == [] || !AllDigits(s[i + 2..]) then None
    else
      match ReadMantissa(s[..i])
      case None => None
      case Some(d) => Denoted(d, s[i + 2..])
  }

  /**
   * The exponent notation Number::toString writes: a mantissa whose first
   * and last digits are not zero, `e+`, and an exponent with no leading
   * zero. Of all texts `ReadExponent` reads as the same number, only this
   * one is written (not `1.0e+21` or `0.1e+22`).
   */
  predicate ShortestExponent(s: string) {
    var i := IndexOfE(s);
    i + 2 < |s| && s[i + 1] == '+' && AllDigits(s[i + 2..]) && s[i + 2] != '0' &&
    match ReadMantissa(s[..i])
    case None => false
    case Some(d) => d[0] != '0' && d[|d| - 1] != '0'
  }

  /** `1e+21` has the shortest form; `1.0e+21` and `0.1e+22`, which read as the same number, do not. */
  lemma ShortestExponentExamples()
    ensures ShortestExponent("1e+21")
    ensures !ShortestExponent("1.0e+21") && !ShortestExponent("0.1e+22")
  {
    assert IndexOfE("1e+21") == 1 && "1e+21"[..1] == "1";
    var s, t := "1.0e+21", "0.1e+22";
    var m, n := "1.0", "0.1";
    assert IndexOfE(s) == 3 && s[..3] == m && IsDigit(m[0]) && m[1] == '.' && m[2..] == "0";
    assert AllDigits(m[2..]) && [m[0]] + m[2..] == "10";
    assert ReadMantissa(s[..3]) == Some("10");
    assert IndexOfE(t) == 3 && t[..3] == n && IsDigit(n[0]) && n[1] == '.' && n[2..] == "1";
    assert AllDigits(n[2..]) && [n[0]] + n[2..] == "01";
    assert ReadMantissa(t[..3]) == Some("01");
  }

  lemma ReadMantissaOf(d: string)
    requires |d| >= 1 && AllDigits(d)
    ensures ReadMantissa(Mantissa(d)) == Some(d)
  {
    if |d| > 1 {
      var m := Mantissa(d);
      assert m[2..] == d[1..];
      assert [m[0]] + m[2..] == d;
    }
  }

  /** The first `e` of `Mantissa(d) + "e+" + x` is the one after the mantissa. */
  lemma SplitAtExponent(d: string, x: string)
    requires |d| >= 1 && AllDigits(d)
    ensures var m := Mantissa(d); var s := m + "e+" + x;
      IndexOfE(s) == |m| && |m| + 1 < |s| && s[|m| + 1] == '+' && s[..|m|] == m && s[|m| + 2..] == x
  {
    var m := Mantissa(d);
    var s := m + "e+" + x;
    assert forall j :: 0 <= j < |m| ==> m[j] == '.' || IsDigit(m[j]);
    assert s[|m|] == 'e' && s[|m| + 1] == '+';
    assert s[..|m|] == m;
    assert s[|m| + 2..] == x;
  }

  lemma ReadExponentAt(s: string, i: nat, d: string, x: string)
    requires i == IndexOfE(s) && i + 2 <= |s| && s[i + 1] == '+'
    requires s[i + 2..] == x && x != [] && AllDigits(x)
    requires ReadMantissa(s[..i]) == Some(d)
    ensures ReadExponent(s) == Denoted(d, x)
  {
  }

  /** Exponent notation assembled from the digits `d` and the exponent `x` reads as what they denote. */
  lemma ReadExponentOf(d: string, x: string)
    requires |d| >= 1 && AllDigits(d) && AllDigits(x) && x != []
    ensures ReadExponent(Mantissa(d) + "e+" + x) == Denoted(d, x)
  {
    SplitAtExponent(d, x);
    ReadMantissaOf(d);
    ReadExponentAt(Mantissa(d) + "e+" + x, |Mantissa(d)|, d, x);
  }

  /** The digits of `m` and the exponent of their first digit denote `m` followed by `z` zeros. */
  lemma DenotesSignificand(m: nat, z: nat, d: string, x: string)
    requires d == DecimalText(m) && x == DecimalText(|d| - 1 + z)
    ensures |d| >= 1 && AllDigits(d) && AllDigits(x)
    ensures Denoted(d, x) == Some(Scaled(m, z))
  {
    DecimalRoundTrip(|d| - 1 + z);
    DecimalRoundTrip(m);
    DenotedScaled(d, x, m, z);
  }

  lemma DenotedScaled(d: string, x: string, v: nat, z: nat)
    requires |d| >= 1 && AllDigits(d) && AllDigits(x)
    requires DigitsValue(d) == v && DigitsValue(x) == |d| - 1 + z
    ensures Denoted(d, x) == Some(Scaled(v, z))
  {
  }

  /** Exponent notation reads back as the number it was written for. */
  lemma ExponentRoundTrip(n: nat)
    requires n > 0
    ensures ReadExponent(ExponentText(n)) == Some(n)
  {
    var (m, z) := Significand(n);
    var d := DecimalText(m);
    var x := DecimalText(|d| - 1 + z);
    DenotesSignificand(m, z, d, x);
    ReadExponentOf(d, x);
    assert ExponentText(n) == ScientificText(m, z) == Mantissa(d) + "e+" + x;
  }

  /** From 10 on, the exponent text of a number has the shortest form. */
  lemma ExponentTextShortest(n: nat)
    requires n >= 10
    ensures ShortestExponent(ExponentText(n))
  {
    var (m, z) := Significand(n);
    var d := DecimalText(m);
    var x := DecimalText(|d| - 1 + z);
    assert z == 0 ==> m == n && |d| >= 2;
    assert |d| - 1 + z > 0;
    SplitAtExponent(d, x);
    ReadMantissaOf(d);
    assert ExponentText(n) == Mantissa(d) + "e+" + x;
    assert d[|d| - 1] != '0';
  }

  /** Number::toString of a natural: a plain numeral below 10^21, exponent notation from there on. */
  function NaturalText(n: nat): (r: string)
    ensures |r| >= 1
    ensures n < ExponentThreshold ==> AllDigits(r) && DigitsValue(r) == n
    ensures n >= ExponentThreshold ==> ReadExponent(r) == Some(n) && ShortestExponent(r)
  {
    if n < ExponentThreshold then
      DecimalRoundTrip(n);
      DecimalText(n)
    else
      ScaledGrows(1, 1, 21);
      ExponentRoundTrip(n);
      ExponentTextShortest(n);
      ExponentText(n)
  }

  /** `String(n)` for an integer `n`: a minus sign for a negative one, then the text of |n|. */
  function IntegerText(n: int): (r: string)
    ensures |r| >= 1
    ensures 0 <= n < ExponentThreshold ==> AllDigits(r) && DigitsValue(r) == n
    ensures -ExponentThreshold < n < 0 ==> r[0] == '-' && AllDigits(r[1..]) && DigitsValue(r[1..]) == -n
    ensures n >= ExponentThreshold ==> ReadExponent(r) == Some(n) && ShortestExponent(r)
    ensures n <= -ExponentThreshold ==> r[0] == '-' && ReadExponent(r[1..]) == Some(-n) && ShortestExponent(r[1..])
  {
    if n < 0 then
      var t := NaturalText(-n);
      assert ("-" + t)[1..] == t;
      "-" + t
    else NaturalText(n)
  }

  /** A power of ten from 10^21 on is written `1e+k`, as `String(1e21)` gives `"1e+21"`. */
  lemma PowerOfTenText(k: nat)
    requires k >= 21
    ensures ToJsString(Number(Scaled(1, k))) == Some("1e+" + DecimalText(k))
  {
    var n := Scaled(1, k);
    ScaledGrows(1, 21, k);
    assert n >= ExponentThreshold;
    assert IntegerText(n) == NaturalText(n) == ExponentText(n);
    ExponentOfPower(k);
    ScientificOne(k);
  }

  lemma {:induction false} ScaledGrows(v: nat, a: nat, b: nat)
    requires a <= b
    ensures Scaled(v, a) <= Scaled(v, b)
    decreases b
  {
    if a < b {
      ScaledGrows(v, a, b - 1);
    }
  }

  lemma ExponentOfPower(k: nat)
    ensures ExponentText(Scaled(1, k)) == ScientificText(1, k)
  {
    SignificandOfPower(k);
  }

  lemma ScientificOne(k: nat)
    ensures ScientificText(1, k) == "1e+" + DecimalText(k)
  {
    var d := DecimalText(1);
    assert d == "1" && Mantissa(d) == "1";
    var x := DecimalText(k);
    assert ScientificText(1, k) == (Mantissa(d) + "e+") + x;
    assert Mantissa(d) + "e+" == "1e+";
  }

  lemma {:induction false} SignificandOfPower(k: nat)
    ensures Significand(Scaled(1, k)) == (1, k)
  {
    if k > 0 {
      var p := Scaled(1, k - 1);
      assert Scaled(1, k) == 10 * p;
      assert (10 * p) % 10 == 0 && (10 * p) / 10 == p;
      SignificandOfPower(k - 1);
    }
  }

  /**
   * `String(v)`: the text JavaScript's string conversion gives a value, or
   * `None` where it throws a TypeError. For an object, ToPrimitive with hint
   * string (section 7.1.1.1 of ECMA-262) tries `toString`, then `valueOf`:
   * an own `toString` that is not a function is skipped, and the inherited
   * `valueOf` returns the object itself, which is not a primitive.
   */
  function ToJsString(v: JsValue): (r: Option<string>)
    ensures r.None? <==> v.PlainObject? && v.ownToString
    ensures v.Str? ==> r == Some(v.s)
    ensures r.Some? && !v.Str? ==> r.value != ""
    ensures v.Number? ==> r == Some(IntegerText(v.n))
    ensures v == PlainObject(false) ==> r == Some("[object Object]")
  {
    match v
    case Undefined => Some("undefined")
    case Null => Some("null")
    case Bool(b) => if b then Some("true") else Some("false")
    case Number(n) => Some(IntegerText(n))
    case NaN => Some("NaN")
    case Str(s) => Some(s)
    case PlainObject(ownToString) => if ownToString then None else Some("[object Object]")
  }

  /**
   * The members `JSON.stringify` writes for an object literal with these
   * members, in order: members whose value is `undefined` are omitted.
   */
  function StringifiedMembers(members: seq<(string, JsValue)>): (r: seq<(string, JsValue)>)
    ensures |r| <= |members|
    ensures forall m :: m in r <==> m in members && !m.1.Undefined?
    ensures (forall k :: 0 <= k < |members| ==> !members[k].1.Undefined?) ==> r == members
  {
    if members == [] then []
    else
      var tail := StringifiedMembers(members[1..]);
      if members[0].1.Undefined? then tail else [members[0]] + tail
  }
}
