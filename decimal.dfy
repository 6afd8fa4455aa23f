/** Decimal digit strings: the test `/^[0-9]+$/` used by `isNonRootKey`
    (src/store/types.ts) and the conversion `String(n)` used to make keys. */
module Decimal {

  predicate IsDigit(c: char) { '0' <= c <= '9' }

  /** One or more ASCII digits and nothing else. */
  predicate IsDigitString(s: string) {
    |s| > 0 && forall i :: 0 <= i < |s| ==> IsDigit(s[i])
  }

  function DigitChar(d: nat): (c: char)
    requires d < 10
    ensures IsDigit(c)
  {
    (d + 48) as char
  }

  function DigitValue(c: char): nat {
    if IsDigit(c) then c as int - 48 else 0
  }

  /** The number a digit string denotes in base 10. */
  function DigitsValue(s: string): nat
    decreases |s|
  {
    if |s| == 0 then 0 else DigitsValue(s[..|s| - 1]) * 10 + DigitValue(s[|s| - 1])
  }

  /** `String(n)` for a non-negative integer: its shortest decimal numeral,
      which reads back as `n`. */
  function NatToDecimal(n: nat): (s: string)
    ensures IsDigitString(s)
    ensures DigitsValue(s) == n
    decreases n
  {
    if n < 10 then [DigitChar(n)]
    else
      var prefix := NatToDecimal(n / 10);
      var s := prefix + [DigitChar(n % 10)];
      assert s[..|s| - 1] == prefix;
      s
  }

  /** Distinct numbers have distinct numerals. The key counters are
      unbounded here; in the source they are floating-point numbers, so past
      2^53 adding one can leave a counter unchanged, and from 10^21 on
      `String(n)` uses exponent notation, so "no key is handed out twice"
      holds only below those bounds. */
  lemma DecimalInjective(m: nat, n: nat)
    ensures NatToDecimal(m) == NatToDecimal(n) <==> m == n
  {
  }
}
