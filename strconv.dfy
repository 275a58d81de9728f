/**
 * The two `strconv` conversions the client relies on: `Atoi`, whose error
 * result the client always discards, and `Itoa`, used to print the port.
 * Go's `int` is taken to be 64 bits wide.
 */
module Strconv {

  const MinInt64: int := -0x8000_0000_0000_0000
  const MaxInt64: int := 0x7FFF_FFFF_FFFF_FFFF

  /** Go's `int` on a 64-bit platform. */
  type Int64 = x: int | MinInt64 <= x <= MaxInt64

  predicate IsDigit(c: char) {
    '0' <= c <= '9'
  }

  /** A non-empty run of ASCII decimal digits. */
  predicate IsDecimal(s: string) {
    |s| > 0 && forall i | 0 <= i < |s| :: IsDigit(s[i])
  }

  /** What `Atoi` accepts in base 10: an optional sign, then digits. */
  predicate IsNumeral(s: string) {
    IsDecimal(s) || (|s| > 0 && (s[0] == '+' || s[0] == '-') && IsDecimal(s[1..]))
  }

  function DigitValue(c: char): nat
    requires IsDigit(c)
  {
    (c as int) - ('0' as int)
  }

  function DigitChar(d: nat): (c: char)
    requires d < 10
    ensures IsDigit(c) && DigitValue(c) == d
  {
    ('0' as int + d) as char
  }

  /** The value of a digit string, most significant digit first. */
  function DecimalValue(s: string): nat
    requires forall i | 0 <= i < |s| :: IsDigit(s[i])
  {
    if s == [] then 0 else DecimalValue(s[..|s| - 1]) * 10 + DigitValue(s[|s| - 1])
  }

  /** `ParseInt` reports a range error and returns the nearest bound. */
  function Clamp(v: int): (r: Int64)
    ensures MinInt64 <= v <= MaxInt64 ==> r == v
    ensures v < MinInt64 ==> r == MinInt64
    ensures v > MaxInt64 ==> r == MaxInt64
  {
    if v < MinInt64 then MinInt64 else if v > MaxInt64 then MaxInt64 else v
  }

  /**
   * `strconv.Atoi(s)` with its error ignored: a numeral gives its value
   * (clamped to the int64 range), anything else, the empty string included,
   * gives 0.
   */
  function Atoi(s: string): (r: Int64)
    ensures !IsNumeral(s) ==> r == 0
  {
    if IsDecimal(s) then Clamp(DecimalValue(s))
    else if IsNumeral(s) && s[0] == '+' then Clamp(DecimalValue(s[1..]))
    else if IsNumeral(s) then Clamp(-(DecimalValue(s[1..]) as int))
    else 0
  }

  /** An in-range numeral reads as its value with the sign applied; the sign of the text is the sign of the result. */
  lemma AtoiOfNumeral(s: string)
    requires IsNumeral(s)
    ensures IsDecimal(s) && DecimalValue(s) <= MaxInt64 ==> Atoi(s) == DecimalValue(s)
    ensures s[0] == '+' && DecimalValue(s[1..]) <= MaxInt64 ==> Atoi(s) == DecimalValue(s[1..])
    ensures s[0] == '-' && DecimalValue(s[1..]) <= -MinInt64 ==> Atoi(s) == -(DecimalValue(s[1..]) as int)
    ensures s[0] == '-' ==> Atoi(s) <= 0
    ensures s[0] != '-' ==> Atoi(s) >= 0
  {
  }

  /** The shortest decimal spelling of a natural number. */
  function Digits(n: nat): (s: string)
    ensures IsDecimal(s)
    ensures DecimalValue(s) == n
    ensures n > 0 ==> s[0] != '0'
  {
    if n < 10 then [DigitChar(n)]
    else
      var s := Digits(n / 10) + [DigitChar(n % 10)];
      assert s[..|s| - 1] == Digits(n / 10);
      s
  }

  /**
   * `strconv.Itoa`: the canonical decimal spelling, a minus sign for a
   * negative number and no leading zero; parsing it back gives the number.
   */
  function Itoa(n: Int64): (s: string)
    ensures Atoi(s) == n
    ensures n >= 0 ==> IsDecimal(s)
    ensures n < 0 ==> s[0] == '-' && IsDecimal(s[1..])
    ensures n == 0 ==> s == "0"
    ensures n > 0 ==> s[0] != '0'
    ensures n < 0 ==> s[1] != '0'
    ensures n >= 0 ==> DecimalValue(s) == n
    ensures n < 0 ==> DecimalValue(s[1..]) == -(n as int)
  {
    if n < 0 then
      var s := "-" + Digits(-(n as int));
      assert s[1..] == Digits(-(n as int));
      s
    else Digits(n)
  }
}
