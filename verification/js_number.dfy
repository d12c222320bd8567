/**
 * JavaScript numbers as far as the bridge and the host agent use them:
 * finite values as exact reals, NaN and the two infinities; `Number(s)` on
 * decimal-digit strings, with overflow to Infinity; `Number.isInteger`;
 * decimal rendering of non-negative integers, as template literals and
 * AppleScript text coercion produce it. Rounding to the nearest double is
 * not modelled, so finite values are exact only up to `MaxSafeInteger`.
 */
module JsNumber {
  import opened JsString

  datatype Num = Finite(r: real) | NaN | PosInf | NegInf

  /** `Number.MAX_SAFE_INTEGER`, 2^53 - 1: every integer up to it is a double. */
  const MaxSafeInteger: nat := 9007199254740991

  /**
   * 2^1024 - 2^970, half-way between the largest double and 2^1024: decimal
   * text of this value or more reads as Infinity.
   */
  const OverflowThreshold: nat := 179769313486231580793728971405303415079934132710037826936173778980444968292764750946649017977587207096330286416692887910946555547851940402630657488671505820681908902000708383676273854845817711531764475730270069855571366959622842914819860834936475292719074168444365510704342711559699508093042880177904174497792

  /** `Number.isInteger`. */
  predicate IsInteger(n: Num) {
    n.Finite? && n.r.Floor as real == n.r
  }

  predicate IsDigit(c: char) {
    '0' <= c <= '9'
  }

  predicate AllDigits(s: string) {
    forall i :: 0 <= i < |s| ==> IsDigit(s[i])
  }

  /** The value of a string of decimal digits, most significant first. */
  function DigitsValue(s: string): (v: nat)
    requires AllDigits(s)
  {
    if s == [] then 0 else DigitsValue(s[..|s| - 1]) * 10 + (s[|s| - 1] as int - '0' as int)
  }

  function DigitChar(d: nat): (c: char)
    requires d < 10
    ensures IsDigit(c) && c as int - '0' as int == d
  {
    ('0' as int + d) as char
  }

  /** The decimal text of a non-negative integer, without leading zeros. */
  function Decimal(n: nat): (s: string)
    ensures |s| > 0 && AllDigits(s)
    ensures |s| > 1 ==> s[0] != '0'
  {
    if n < 10 then [DigitChar(n)] else Decimal(n / 10) + [DigitChar(n % 10)]
  }

  /** Whether a trimmed numeric text starts with a minus sign. */
  predicate IsNegative(t: string) {
    |t| > 0 && t[0] == '-'
  }

  /** The text after an optional leading `+` or `-`. */
  function Unsigned(t: string): (u: string)
    ensures |t| > 0 && (t[0] == '+' || t[0] == '-') ==> |u| == |t| - 1 && t == [t[0]] + u
    ensures (|t| == 0 || (t[0] != '+' && t[0] != '-')) ==> u == t
  {
    if |t| > 0 && (t[0] == '+' || t[0] == '-') then t[1..] else t
  }

  /** Unsigned text that `Number` reads as Infinity: the word itself, or digits past the largest double. */
  predicate ReadsAsInfinity(u: string) {
    u == "Infinity" || (u != [] && AllDigits(u) && DigitsValue(u) >= OverflowThreshold)
  }

  /** The unsigned part of `Number`'s decimal grammar: "Infinity" or a run of decimal digits. */
  function UnsignedToNumber(u: string): (n: Num)
    ensures !n.NegInf?
    ensures n.Finite? ==> IsInteger(n) && 0.0 <= n.r < OverflowThreshold as real
                          && u != [] && AllDigits(u) && n.r == DigitsValue(u) as real
    ensures n.PosInf? <==> ReadsAsInfinity(u)
    ensures n.NaN? <==> u != "Infinity" && (u == [] || !AllDigits(u))
  {
    if u == "Infinity" then PosInf
    else if u != [] && AllDigits(u) then
      var v := DigitsValue(u);
      if v >= OverflowThreshold then PosInf else Finite(v as real)
    else NaN
  }

  /** Unary `-x`. */
  function Negate(x: Num): (m: Num)
    ensures m.NaN? <==> x.NaN?
    ensures m.PosInf? <==> x.NegInf?
    ensures m.NegInf? <==> x.PosInf?
    ensures m.Finite? <==> x.Finite?
    ensures m.Finite? ==> m.r == -x.r && (IsInteger(m) <==> IsInteger(x))
  {
    match x
    case Finite(r) =>
      assert (-r).Floor as real == -r <==> r.Floor as real == r by {
        if r.Floor as real == r {
          assert (-r).Floor == -(r.Floor);
        }
      }
      Finite(-r)
    case NaN => NaN
    case PosInf => NegInf
    case NegInf => PosInf
  }

  /**
   * `Number(s)` for strings: surrounding whitespace is ignored, the blank
   * string is 0, and an optional `+` or `-` may precede "Infinity" or a run
   * of decimal digits, which reads as its value, or as Infinity when that
   * value is past the largest double. Every other string is NaN here
   * (fractions, exponents and hex are not part of this model).
   */
  function StringToNumber(s: string): (n: Num)
    ensures Trim(s) == [] ==> n == Finite(0.0)
    ensures n.Finite? ==> IsInteger(n) && -(OverflowThreshold as real) < n.r < OverflowThreshold as real
    ensures n.Finite? && Trim(s) != [] ==>
              var u := Unsigned(Trim(s));
              && u != [] && AllDigits(u)
              && (if IsNegative(Trim(s)) then -n.r else n.r) == DigitsValue(u) as real
    ensures n.PosInf? <==> Trim(s) != [] && !IsNegative(Trim(s)) && ReadsAsInfinity(Unsigned(Trim(s)))
    ensures n.NegInf? <==> IsNegative(Trim(s)) && ReadsAsInfinity(Unsigned(Trim(s)))
    ensures n.NaN? <==> Trim(s) != [] && Unsigned(Trim(s)) != "Infinity"
                        && (Unsigned(Trim(s)) == [] || !AllDigits(Unsigned(Trim(s))))
  {
    var t := Trim(s);
    if t == [] then Finite(0.0)
    else
      var n := UnsignedToNumber(Unsigned(t));
      if IsNegative(t) then Negate(n) else n
  }

  /** Decimal text reads back as the number it renders. */
  lemma {:induction false} DecimalValue(n: nat)
    ensures DigitsValue(Decimal(n)) == n
  {
    if n >= 10 {
      var s := Decimal(n);
      assert s[..|s| - 1] == Decimal(n / 10);
      DecimalValue(n / 10);
    }
  }

  /** `Number(String(n))` is `n` for every safe non-negative integer. */
  lemma DecimalRoundTrip(n: nat)
    requires n <= MaxSafeInteger
    ensures StringToNumber(Decimal(n)) == Finite(n as real)
  {
    var s := Decimal(n);
    assert !IsWhitespace(s[0]) && !IsWhitespace(s[|s| - 1]);
    TrimTrimmed(s);
    DecimalValue(n);
  }

  /** The decimal text of a value past the largest double reads as Infinity. */
  lemma DecimalOverflow(n: nat)
    requires n >= OverflowThreshold
    ensures StringToNumber(Decimal(n)) == PosInf
  {
    var s := Decimal(n);
    assert !IsWhitespace(s[0]) && !IsWhitespace(s[|s| - 1]);
    TrimTrimmed(s);
    DecimalValue(n);
  }

  /** Text without surrounding whitespace is read by its sign and its unsigned part. */
  lemma TrimmedNumber(t: string)
    requires t != [] && IsTrimmed(t)
    ensures StringToNumber(t) == if IsNegative(t) then Negate(UnsignedToNumber(Unsigned(t)))
                                 else UnsignedToNumber(Unsigned(t))
  {
    TrimTrimmed(t);
  }

  /** A sign before the digits is honoured: `Number("+" + n)` is `n` and `Number("-" + n)` is `-n`. */
  lemma SignedDecimalRoundTrip(n: nat)
    requires n <= MaxSafeInteger
    ensures StringToNumber("+" + Decimal(n)) == Finite(n as real)
    ensures StringToNumber("-" + Decimal(n)) == Finite(-(n as real))
  {
    var d := Decimal(n);
    DecimalValue(n);
    SignedTrimmed('+', d);
    SignedTrimmed('-', d);
  }

  lemma SignedTrimmed(sign: char, d: string)
    requires (sign == '+' || sign == '-') && d != [] && AllDigits(d)
    ensures var t := [sign] + d;
            t != [] && IsTrimmed(t) && Unsigned(t) == d && (IsNegative(t) <==> sign == '-')
            && StringToNumber(t) == if sign == '-' then Negate(UnsignedToNumber(d)) else UnsignedToNumber(d)
  {
    var t := [sign] + d;
    assert t[|t| - 1] == d[|d| - 1];
    TrimmedNumber(t);
  }

  /** "Infinity" reads as Infinity. */
  lemma InfinityText()
    ensures StringToNumber("Infinity") == PosInf
  {
    TrimmedNumber("Infinity");
  }

  /** "Infinity" after a sign reads as the infinity of that sign. */
  lemma SignedInfinityText(sign: char)
    requires sign == '+' || sign == '-'
    ensures StringToNumber([sign] + "Infinity") == if sign == '-' then NegInf else PosInf
  {
    var t := [sign] + "Infinity";
    assert t[|t| - 1] == 'y' && Unsigned(t) == "Infinity";
    TrimmedNumber(t);
  }

  /** `x + 1`. */
  function AddOne(x: Num): Num {
    match x
    case Finite(r) => Finite(r + 1.0)
    case _ => x
  }

  /** `Math.max(a, b)`: NaN if either operand is NaN, else the larger operand. */
  function Max(a: Num, b: Num): (m: Num)
    ensures (a.NaN? || b.NaN?) <==> m.NaN?
    ensures !m.NaN? ==> (m == a || m == b) && NotBelow(m, a) && NotBelow(m, b)
  {
    if a.NaN? || b.NaN? then NaN
    else if a.PosInf? || b.PosInf? then PosInf
    else if a.NegInf? then b
    else if b.NegInf? then a
    else if a.r >= b.r then a else b
  }

  /** `y <= x` on numbers that are not NaN. */
  predicate NotBelow(x: Num, y: Num) {
    match (x, y)
    case (PosInf, _) => true
    case (_, NegInf) => true
    case (Finite(a), Finite(b)) => b <= a
    case _ => false
  }

  /** `k <= x` for an integer `k`; every comparison with NaN is false. */
  predicate AtMost(k: int, x: Num) {
    match x
    case Finite(r) => k as real <= r
    case PosInf => true
    case _ => false
  }

  /** `k < x` for an integer `k`. */
  predicate Below(k: int, x: Num) {
    match x
    case Finite(r) => (k as real) < r
    case PosInf => true
    case _ => false
  }
}
