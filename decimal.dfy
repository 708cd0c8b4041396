/**
 * Decimal text of a non-negative integer, as a JavaScript template literal
 * `${n}` writes a window start into a cache key: the digits of `n`, most
 * significant first, with no sign, no leading zeros and "0" for zero.
 * Parsing the text back gives the number, so the text determines the number.
 */
module Decimal {

  predicate IsDigit(c: char) {
    '0' <= c <= '9'
  }

  function DigitChar(d: nat): (c: char)
    requires d < 10
    ensures IsDigit(c)
  {
    "0123456789"[d]
  }

  function DigitValue(c: char): (d: nat)
    requires IsDigit(c)
    ensures d < 10
  {
    (c as int - '0' as int) as nat
  }

  lemma DigitRoundTrip(d: nat)
    requires d < 10
    ensures DigitValue(DigitChar(d)) == d
  {
  }

  /** The decimal digits of `n`. */
  function Show(n: nat): (s: string)
    ensures |s| > 0
    ensures forall i :: 0 <= i < |s| ==> IsDigit(s[i])
    decreases n
  {
    if n < 10 then [DigitChar(n)] else Show(n / 10) + [DigitChar(n % 10)]
  }

  /** The number a non-empty string of decimal digits denotes. */
  function Parse(s: string): (n: nat)
    requires forall i :: 0 <= i < |s| ==> IsDigit(s[i])
    decreases |s|
  {
    if |s| == 0 then 0 else 10 * Parse(s[..|s| - 1]) + DigitValue(s[|s| - 1])
  }

  /** Parsing the decimal text of `n` gives back `n`. */
  lemma {:induction false} ParseShow(n: nat)
    ensures Parse(Show(n)) == n
    decreases n
  {
    var s := Show(n);
    if n < 10 {
      DigitRoundTrip(n);
    } else {
      ParseShow(n / 10);
      assert s[..|s| - 1] == Show(n / 10);
      DigitRoundTrip(n % 10);
    }
  }

  /** Distinct numbers have distinct decimal texts. */
  lemma ShowInjective(m: nat, n: nat)
    ensures Show(m) == Show(n) ==> m == n
  {
    ParseShow(m);
    ParseShow(n);
  }
}
