/** The two number/string conversions dice-rolls.js relies on: `parseInt` on the digit
    runs captured by the dice pattern, and the decimal rendering of an integer that the
    default comparator of `Array.prototype.sort` compares. */
module JsNumbers {

  predicate IsDigit(c: char) { '0' <= c <= '9' }

  predicate AllDigits(s: string) { forall k :: 0 <= k < |s| ==> IsDigit(s[k]) }

  /** A non-empty run of decimal digits, as `\d+` captures it. */
  predicate IsDigits(s: string) { |s| > 0 && AllDigits(s) }

  /** An optional minus sign followed by a digit run. */
  predicate IsSignedDigits(s: string) {
    IsDigits(s) || (|s| > 1 && s[0] == '-' && IsDigits(s[1..]))
  }

  function DigitValue(c: char): (r: nat)
    requires IsDigit(c)
  {
    (c as int) - ('0' as int)
  }

  function DigitChar(d: nat): (c: char)
    requires d < 10
    ensures IsDigit(c) && DigitValue(c) == d
  {
    (('0' as int) + d) as char
  }

  /** `parseInt` of a string of decimal digits; leading zeros are allowed. */
  function DecimalValue(s: string): (r: nat)
    requires AllDigits(s)
    decreases |s|
  {
    if s == [] then 0 else 10 * DecimalValue(s[..|s| - 1]) + DigitValue(s[|s| - 1])
  }

  /** `parseInt` of an optionally negated digit run. */
  function ParseInt(s: string): (r: int)
    requires IsSignedDigits(s)
  {
    if s[0] == '-' then -(DecimalValue(s[1..]) as int) else DecimalValue(s) as int
  }

  /** The decimal text of a non-negative integer, without leading zeros. */
  function NatToString(n: nat): (s: string)
    ensures IsDigits(s)
    ensures n > 0 ==> s[0] != '0'
    decreases n
  {
    if n < 10 then [DigitChar(n)] else NatToString(n / 10) + [DigitChar(n % 10)]
  }

  /** `String(n)` for an integer `n`. */
  function IntToString(n: int): (r: string) {
    if n < 0 then "-" + NatToString(-n) else NatToString(n)
  }

  /** Reading back the rendering of a natural number gives the number. */
  lemma {:induction false} DecimalValueOfNatToString(n: nat)
    ensures DecimalValue(NatToString(n)) == n
    decreases n
  {
    if n >= 10 {
      DecimalValueOfNatToString(n / 10);
      var s := NatToString(n);
      assert s[..|s| - 1] == NatToString(n / 10);
    }
  }

  /** `parseInt(String(n)) == n` for every integer: the rendering is a signed digit run
      that parses back to the number. */
  lemma ParseIntOfIntToString(n: int)
    ensures IsSignedDigits(IntToString(n))
    ensures ParseInt(IntToString(n)) == n
  {
    if n < 0 {
      DecimalValueOfNatToString(-n);
      assert IntToString(n)[1..] == NatToString(-n);
    } else {
      DecimalValueOfNatToString(n);
    }
  }

  /** Different integers have different renderings, so sorting by rendering never ties
      two different values. */
  lemma IntToStringInjective(a: int, b: int)
    requires IntToString(a) == IntToString(b)
    ensures a == b
  {
    ParseIntOfIntToString(a);
    ParseIntOfIntToString(b);
  }
}
