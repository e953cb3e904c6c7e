/**
 * Numeric text: JavaScript's `parseFloat(x) || 0` (the coercion applied to the
 * quantity and price fields) and `Number.prototype.toString` (used when a
 * record is loaded back into the draft form).
 *
 * Numbers are exact reals; IEEE-754 rounding, NaN and the infinities are not
 * modelled (NaN only arises as "no number parsed", which `|| 0` turns into 0).
 */
module Numbers {
  import opened Wrappers

  predicate IsDigit(c: char) {
    '0' <= c <= '9'
  }

  function DigitValue(c: char): nat
    requires IsDigit(c)
  {
    c as int - '0' as int
  }

  function DigitChar(d: nat): (c: char)
    requires d < 10
    ensures IsDigit(c) && DigitValue(c) == d
  {
    ('0' as int + d) as char
  }

  predicate AllDigits(s: string) {
    forall i :: 0 <= i < |s| ==> IsDigit(s[i])
  }

  function Pow10(k: nat): (r: nat)
    ensures r >= 1
  {
    if k == 0 then 1 else 10 * Pow10(k - 1)
  }

  /** The value of a string of decimal digits, read most significant first. */
  function DigitsValue(s: string): nat
    requires AllDigits(s)
  {
    if s == [] then 0 else 10 * DigitsValue(s[..|s| - 1]) + DigitValue(s[|s| - 1])
  }

  lemma DigitsValueSnoc(s: string, c: char)
    requires AllDigits(s) && IsDigit(c)
    ensures AllDigits(s + [c]) && DigitsValue(s + [c]) == 10 * DigitsValue(s) + DigitValue(c)
  {
    assert (s + [c])[..|s|] == s;
  }

  /*
   * parseFloat: skip leading white space, read an optional sign, then the
   * longest prefix of the form  [digits] [ "." [digits] ] [ ("e"|"E") [sign] digits ]
   * in which at least one mantissa digit occurs; anything after that prefix is
   * ignored, and no such prefix means NaN (None here).
   */

  /** JavaScript's StrWhiteSpaceChar: white space and line terminators. */
  predicate IsJsWhiteSpace(c: char) {
    || c == ' ' || c == '\t' || c == '\n' || c == '\r'
    || c as int == 0x0B || c as int == 0x0C || c as int == 0xA0 || c as int == 0x1680
    || 0x2000 <= c as int <= 0x200A
    || c as int == 0x2028 || c as int == 0x2029 || c as int == 0x202F
    || c as int == 0x205F || c as int == 0x3000 || c as int == 0xFEFF
  }

  /** `s` without its leading white space. */
  function TrimStart(s: string): (t: string)
    ensures |t| <= |s| && t == s[|s| - |t|..]
    ensures t == [] || !IsJsWhiteSpace(t[0])
    ensures forall i :: 0 <= i < |s| - |t| ==> IsJsWhiteSpace(s[i])
  {
    if s != [] && IsJsWhiteSpace(s[0]) then TrimStart(s[1..]) else s
  }

  /** The longest prefix of `s` made of decimal digits, and the rest. */
  function SplitDigits(s: string): (p: (string, string))
    ensures AllDigits(p.0) && p.0 + p.1 == s
    ensures p.1 == [] || !IsDigit(p.1[0])
  {
    if s != [] && IsDigit(s[0]) then
      var (d, rest) := SplitDigits(s[1..]);
      ([s[0]] + d, rest)
    else
      ([], s)
  }

  /** A maximal run of digits is exactly what SplitDigits takes off. */
  lemma {:induction false} SplitDigitsOf(d: string, rest: string)
    requires AllDigits(d)
    requires rest == [] || !IsDigit(rest[0])
    ensures SplitDigits(d + rest) == (d, rest)
  {
    if d != [] {
      assert (d + rest)[0] == d[0];
      assert (d + rest)[1..] == d[1..] + rest;
      SplitDigitsOf(d[1..], rest);
      assert [d[0]] + d[1..] == d;
    } else {
      assert d + rest == rest;
    }
  }

  /** 10 to the power `e`, for a possibly negative exponent. */
  function Scale(e: int): (r: real)
    ensures r > 0.0
  {
    if e >= 0 then Pow10(e) as real else 1.0 / Pow10(-e) as real
  }

  /** The exponent written at the start of `s`, or 0 when none is written there. */
  function ExponentPart(s: string): int {
    if s != [] && (s[0] == 'e' || s[0] == 'E') then
      var t := s[1..];
      var negative := t != [] && t[0] == '-';
      var u := if t != [] && (t[0] == '-' || t[0] == '+') then t[1..] else t;
      var (digits, _) := SplitDigits(u);
      if negative then -(DigitsValue(digits) as int) else DigitsValue(digits)
    else
      0
  }

  /** The fraction digits written after a "." at the start of `s`, and the rest. */
  function SplitFraction(s: string): (p: (string, string))
    ensures AllDigits(p.0)
  {
    if s != [] && s[0] == '.' then SplitDigits(s[1..]) else ([], s)
  }

  /** The number written as `intDigits` "." `fracDigits`. */
  function Mantissa(intDigits: string, fracDigits: string): real
    requires AllDigits(intDigits) && AllDigits(fracDigits)
  {
    DigitsValue(intDigits) as real + DigitsValue(fracDigits) as real / Pow10(|fracDigits|) as real
  }

  /** An unsigned decimal literal: its integer digits, its fraction digits and its exponent. */
  datatype Literal = Literal(intDigits: string, fracDigits: string, exponent: int)

  /** The unsigned decimal literal at the start of `s`, if there is one. */
  function ScanUnsigned(s: string): (r: Option<Literal>)
    ensures r.Some? ==> AllDigits(r.value.intDigits) && AllDigits(r.value.fracDigits)
  {
    var (intDigits, afterInt) := SplitDigits(s);
    var (fracDigits, afterFrac) := SplitFraction(afterInt);
    if intDigits == [] && fracDigits == [] then
      None
    else
      Some(Literal(intDigits, fracDigits, ExponentPart(afterFrac)))
  }

  /** The number a literal denotes. */
  function LiteralValue(l: Literal): real
    requires AllDigits(l.intDigits) && AllDigits(l.fracDigits)
  {
    Mantissa(l.intDigits, l.fracDigits) * Scale(l.exponent)
  }

  /** The value of the unsigned decimal literal at the start of `s`, if there is one. */
  function ParseUnsigned(s: string): Option<real> {
    match ScanUnsigned(s)
    case None => None
    case Some(l) => Some(LiteralValue(l))
  }

  /** `parseFloat(s)`; None stands for NaN. */
  function ParseFloat(s: string): Option<real> {
    ParseSigned(TrimStart(s))
  }

  /** The optionally signed decimal literal at the start of `t`, if there is one. */
  function ParseSigned(t: string): Option<real> {
    if t != [] && t[0] == '-' then
      match ParseUnsigned(t[1..])
      case Some(x) => Some(-x)
      case None => None
    else if t != [] && t[0] == '+' then
      ParseUnsigned(t[1..])
    else
      ParseUnsigned(t)
  }

  /** `parseFloat(s) || 0`: NaN and zero both give 0, any other number is kept. */
  function ParseOrZero(s: string): (r: real)
    ensures ParseFloat(s).None? ==> r == 0.0
    ensures ParseFloat(s).Some? ==> r == ParseFloat(s).value
  {
    match ParseFloat(s)
    case Some(x) => x
    case None => 0.0
  }

  /*
   * Number.prototype.toString, for the numbers it writes in plain decimal
   * notation: an optional "-", the integer digits, and, when the number is not
   * whole, "." followed by the fewest fraction digits that represent it exactly
   * (at most MaxFractionDigits of them).
   */

  const MaxFractionDigits: nat := 20

  predicate IsInteger(x: real) {
    x == x.Floor as real
  }

  /** `x` times 10 to the power `k`: the decimal point moved `k` places right. */
  function Shifted(x: real, k: nat): real {
    x * Pow10(k) as real
  }

  /** A number whose decimal expansion ends within MaxFractionDigits places. */
  predicate IsShortDecimal(x: real) {
    IsInteger(Shifted(x, MaxFractionDigits))
  }

  /** The decimal digits of `n`, without leading zeros. */
  function NatToDigits(n: nat): (s: string)
    ensures s != [] && AllDigits(s) && DigitsValue(s) == n
  {
    if n < 10 then
      DigitsValueSnoc([], DigitChar(n));
      [DigitChar(n)]
    else
      DigitsValueSnoc(NatToDigits(n / 10), DigitChar(n % 10));
      NatToDigits(n / 10) + [DigitChar(n % 10)]
  }

  /** Exactly `k` decimal digits of `m`, zero-padded on the left. */
  function FixedDigits(m: nat, k: nat): (s: string)
    requires m < Pow10(k)
    ensures |s| == k && AllDigits(s) && DigitsValue(s) == m
  {
    if k == 0 then
      []
    else
      DigitsValueSnoc(FixedDigits(m / 10, k - 1), DigitChar(m % 10));
      FixedDigits(m / 10, k - 1) + [DigitChar(m % 10)]
  }

  /** The least number of places, from `k` up to MaxFractionDigits, at which `f` becomes whole. */
  function FractionPlaces(f: real, k: nat): (n: nat)
    requires k <= MaxFractionDigits
    ensures k <= n <= MaxFractionDigits
    ensures n < MaxFractionDigits ==> IsInteger(Shifted(f, n))
    ensures forall j :: k <= j < n ==> !IsInteger(Shifted(f, j))
    decreases MaxFractionDigits - k
  {
    if k == MaxFractionDigits then k
    else if IsInteger(Shifted(f, k)) then k
    else FractionPlaces(f, k + 1)
  }

  /** The fraction digits of `f`, a number in [0, 1): "" for 0. */
  function FractionDigits(f: real): string
    requires 0.0 <= f < 1.0
  {
    var k := FractionPlaces(f, 0);
    ShiftedFractionBound(f, k);
    FixedDigits(Shifted(f, k).Floor, k)
  }

  lemma ShiftedFractionBound(f: real, k: nat)
    requires 0.0 <= f < 1.0
    ensures 0.0 <= Shifted(f, k) < Pow10(k) as real
    ensures 0 <= Shifted(f, k).Floor < Pow10(k)
  {
    var p := Pow10(k) as real;
    assert p - f * p == (1.0 - f) * p;
  }

  function UnsignedToString(x: real): string
    requires x >= 0.0
  {
    var f := x - x.Floor as real;
    if f == 0.0 then NatToDigits(x.Floor) else NatToDigits(x.Floor) + "." + FractionDigits(f)
  }

  /** `x.toString()` for a number written in plain decimal notation. */
  function NumberToString(x: real): string {
    if x < 0.0 then "-" + UnsignedToString(-x) else UnsignedToString(x)
  }
}

module NumberFacts {
  import opened Wrappers
  import opened Numbers

  lemma IntegerMinusWhole(a: real, n: int)
    requires IsInteger(a)
    ensures IsInteger(a - n as real)
  {
    assert a - n as real == (a.Floor - n) as real;
  }

  lemma IntegerNegated(a: real)
    requires IsInteger(a)
    ensures IsInteger(-a)
  {
    var n := a.Floor;
    assert a == n as real;
    assert -a == (-n) as real;
    assert (-a).Floor == -n;
  }

  /** The fraction part of a short decimal is whole once shifted by its own number of places. */
  lemma {:induction false} FractionPlacesExact(x: real)
    requires x >= 0.0 && IsShortDecimal(x)
    ensures var f := x - x.Floor as real; IsInteger(Shifted(f, FractionPlaces(f, 0)))
  {
    var f := x - x.Floor as real;
    var k := FractionPlaces(f, 0);
    if k == MaxFractionDigits {
      ShiftedMinusWhole(x, x.Floor, k);
      IntegerMinusWhole(Shifted(x, k), x.Floor * Pow10(k));
    }
  }

  lemma ShiftedMinusWhole(x: real, n: int, k: nat)
    ensures Shifted(x - n as real, k) == Shifted(x, k) - (n * Pow10(k)) as real
  {
    var p := Pow10(k);
    assert (x - n as real) * p as real == x * p as real - n as real * p as real;
    assert (n * p) as real == n as real * p as real;
  }

  lemma ParseUnsignedWhole(d: string)
    requires AllDigits(d) && d != []
    ensures ParseUnsigned(d) == Some(DigitsValue(d) as real)
  {
    assert d + [] == d;
    SplitDigitsOf(d, []);
    var none: string := [];
    assert ScanUnsigned(d) == Some(Literal(d, none, 0));
    assert DigitsValue(none) == 0 && Pow10(|none|) == 1;
  }

  lemma ParseUnsignedDecimal(d: string, fd: string)
    requires AllDigits(d) && AllDigits(fd) && d != []
    ensures ParseUnsigned(d + "." + fd) == Some(Mantissa(d, fd))
  {
    var after := "." + fd;
    assert d + "." + fd == d + after;
    SplitDigitsOf(d, after);
    assert after[1..] == fd + [];
    SplitDigitsOf(fd, []);
    assert SplitFraction(after) == (fd, []);
    assert ScanUnsigned(d + after) == Some(Literal(d, fd, 0));
  }

  lemma UnshiftWhole(f: real, k: nat)
    requires IsInteger(Shifted(f, k))
    ensures Shifted(f, k).Floor as real / Pow10(k) as real == f
  {
  }

  lemma {:induction false} ParseUnsignedOfUnsignedToString(x: real)
    requires x >= 0.0 && IsShortDecimal(x)
    ensures ParseUnsigned(UnsignedToString(x)) == Some(x)
  {
    var i: nat := x.Floor;
    var f := x - i as real;
    var digits := NatToDigits(i);
    if f == 0.0 {
      ParseUnsignedWhole(digits);
    } else {
      var fd := FractionDigits(f);
      assert UnsignedToString(x) == digits + "." + fd;
      ParseUnsignedDecimal(digits, fd);
      MantissaOfFraction(x);
    }
  }

  /** The digits written before and after the "." denote the number again. */
  lemma MantissaOfFraction(x: real)
    requires x >= 0.0 && IsShortDecimal(x)
    requires x - x.Floor as real != 0.0
    ensures Mantissa(NatToDigits(x.Floor), FractionDigits(x - x.Floor as real)) == x
  {
    var i: nat := x.Floor;
    var f := x - i as real;
    var k := FractionPlaces(f, 0);
    FractionPlacesExact(x);
    ShiftedFractionBound(f, k);
    var fd := FractionDigits(f);
    assert |fd| == k && DigitsValue(fd) == Shifted(f, k).Floor;
    UnshiftWhole(f, k);
    assert DigitsValue(fd) as real / Pow10(|fd|) as real == f;
  }

  lemma ParseFloatUnsigned(s: string)
    requires s != [] && IsDigit(s[0])
    ensures ParseFloat(s) == ParseUnsigned(s)
  {
  }

  lemma ParseFloatNegative(s: string)
    requires s != [] && IsDigit(s[0])
    ensures ParseFloat("-" + s) == match ParseUnsigned(s) case Some(x) => Some(-x) case None => None
  {
    var t := "-" + s;
    assert t[0] == '-' && !IsJsWhiteSpace(t[0]);
    assert TrimStart(t) == t;
    assert t[1..] == s;
  }

  /**
   * Loading a number into the form as text and committing it again gives the
   * same number back: `parseFloat(x.toString()) || 0 == x`.
   */
  lemma {:induction false} ParseOrZeroOfNumberToString(x: real)
    requires IsShortDecimal(x)
    ensures ParseOrZero(NumberToString(x)) == x
  {
    if x < 0.0 {
      assert Shifted(-x, MaxFractionDigits) == -Shifted(x, MaxFractionDigits);
      IntegerNegated(Shifted(x, MaxFractionDigits));
      ParseUnsignedOfUnsignedToString(-x);
      UnsignedStartsWithDigit(-x);
      ParseFloatNegative(UnsignedToString(-x));
    } else {
      ParseUnsignedOfUnsignedToString(x);
      UnsignedStartsWithDigit(x);
      ParseFloatUnsigned(UnsignedToString(x));
    }
  }

  lemma UnsignedStartsWithDigit(x: real)
    requires x >= 0.0
    ensures UnsignedToString(x) != [] && IsDigit(UnsignedToString(x)[0])
  {
    var d := NatToDigits(x.Floor);
    assert UnsignedToString(x)[0] == d[0];
  }

  /** "3" is read as the number 3. */
  lemma ParseOrZeroDigits()
    ensures ParseOrZero("3") == 3.0
  {
    ParseUnsignedWhole("3");
    ParseFloatUnsigned("3");
  }

  /** Text that does not start with a number coerces to 0. */
  lemma ParseOrZeroNoNumber(w: string)
    requires w == [] || (!IsJsWhiteSpace(w[0]) && !IsDigit(w[0]) && w[0] !in ".-+")
    ensures ParseOrZero(w) == 0.0
  {
    TrimStartOf([], w);
    assert [] + w == w;
    assert SplitDigits(w) == ([], w);
    assert SplitFraction(w) == ([], w);
    assert ScanUnsigned(w) == None;
  }

  /** Leading white space is skipped. */
  lemma ParseOrZeroSkipsSpace(ws: string, t: string)
    requires forall i :: 0 <= i < |ws| ==> IsJsWhiteSpace(ws[i])
    requires t == [] || !IsJsWhiteSpace(t[0])
    ensures ParseOrZero(ws + t) == ParseOrZero(t)
  {
    TrimStartOf(ws, t);
    TrimStartOf([], t);
    assert [] + t == t;
  }

  /** Text after the leading digits that cannot continue a number is ignored. */
  lemma ParseOrZeroLeadingDigits(d: string, rest: string)
    requires AllDigits(d) && d != []
    requires rest == [] || (!IsDigit(rest[0]) && rest[0] !in ".eE")
    ensures ParseOrZero(d + rest) == DigitsValue(d) as real
  {
    assert (d + rest)[0] == d[0];
    ScanNoFraction(d, rest);
    assert ExponentPart(rest) == 0;
    var lit := Literal(d, [], 0);
    ParseOrZeroOfScan(d + rest, lit);
    WholeLiteralValue(lit);
  }

  lemma {:induction false} TrimStartOf(ws: string, t: string)
    requires forall i :: 0 <= i < |ws| ==> IsJsWhiteSpace(ws[i])
    requires t == [] || !IsJsWhiteSpace(t[0])
    ensures TrimStart(ws + t) == t
  {
    if ws == [] {
      assert ws + t == t;
    } else {
      assert (ws + t)[0] == ws[0];
      assert (ws + t)[1..] == ws[1..] + t;
      TrimStartOf(ws[1..], t);
    }
  }

  lemma ParseOrZeroSignedDecimal()
    ensures ParseOrZero("-2.5") == -2.5
  {
    assert "2" + "." + "5" == "2.5";
    ParseUnsignedDecimal("2", "5");
    assert DigitsValue("2") == 2 && DigitsValue("5") == 5 && Pow10(1) == 10;
    assert Mantissa("2", "5") == 2.5;
    assert ParseUnsigned("2.5") == Some(2.5);
    assert "-" + "2.5" == "-2.5";
    ParseFloatNegative("2.5");
    assert ParseFloat("-2.5") == Some(-2.5);
  }

  /** Digits followed by anything but more digits or a "." form a literal without fraction. */
  lemma ScanNoFraction(d: string, rest: string)
    requires AllDigits(d) && d != []
    requires rest == [] || (!IsDigit(rest[0]) && rest[0] != '.')
    ensures ScanUnsigned(d + rest) == Some(Literal(d, [], ExponentPart(rest)))
  {
    SplitDigitsOf(d, rest);
    assert SplitFraction(rest) == ([], rest);
  }

  /** A literal without fraction digits and with exponent n denotes its digits times 10^n. */
  lemma WholeLiteralValue(l: Literal)
    requires AllDigits(l.intDigits) && l.fracDigits == [] && l.exponent >= 0
    ensures LiteralValue(l) == Shifted(DigitsValue(l.intDigits) as real, l.exponent)
    ensures l.exponent == 0 ==> LiteralValue(l) == DigitsValue(l.intDigits) as real
  {
    assert DigitsValue(l.fracDigits) == 0 && Pow10(|l.fracDigits|) == 1;
    assert Mantissa(l.intDigits, l.fracDigits) == DigitsValue(l.intDigits) as real;
    assert Scale(l.exponent) == Pow10(l.exponent) as real;
  }

  /** Digits, an "e" and more digits: a literal without fraction and with that exponent. */
  lemma ScanExponent(d: string, e: string)
    requires AllDigits(d) && d != [] && AllDigits(e) && e != []
    ensures ScanUnsigned(d + "e" + e) == Some(Literal(d, [], DigitsValue(e)))
  {
    var after := "e" + e;
    assert d + "e" + e == d + after;
    assert after[0] == 'e';
    ScanNoFraction(d, after);
    ExponentPartDigits(e);
  }

  lemma ExponentPartDigits(e: string)
    requires AllDigits(e) && e != []
    ensures ExponentPart("e" + e) == DigitsValue(e)
  {
    var after := "e" + e;
    assert after[0] == 'e';
    assert after[1..] == e + [];
    assert e[0] != '-' && e[0] != '+';
    SplitDigitsOf(e, []);
  }

  /** An exponent scales the digits before it: parseFloat("1e3") is 1000. */
  lemma ParseOrZeroExponent(d: string, e: string)
    requires AllDigits(d) && d != [] && AllDigits(e) && e != []
    ensures ParseOrZero(d + "e" + e) == Shifted(DigitsValue(d) as real, DigitsValue(e))
  {
    ScanExponent(d, e);
    var lit := Literal(d, [], DigitsValue(e));
    assert (d + "e" + e)[0] == d[0];
    ParseOrZeroOfScan(d + "e" + e, lit);
    WholeLiteralValue(lit);
  }

  /** Text that starts with a digit coerces to the value of the literal scanned from it. */
  lemma ParseOrZeroOfScan(s: string, lit: Literal)
    requires s != [] && IsDigit(s[0])
    requires ScanUnsigned(s) == Some(lit)
    ensures ParseOrZero(s) == LiteralValue(lit)
  {
    ParseFloatUnsigned(s);
  }
}
