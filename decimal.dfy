/** Decimal text of integers: `parseInt(s, 10)` on digit runs and `String(n)` / `n.toString()`. */
module Decimal {
  import opened JsValues

  predicate IsDigit(c: char)
  {
    '0' <= c <= '9'
  }

  predicate AllDigits(s: string)
  {
    forall k :: 0 <= k < |s| ==> IsDigit(s[k])
  }

  function DigitValue(c: char): (d: nat)
    requires IsDigit(c)
    ensures d < 10
  {
    (c as int) - ('0' as int)
  }

  function DigitChar(d: nat): (c: char)
    requires d < 10
    ensures IsDigit(c) && DigitValue(c) == d
  {
    (('0' as int) + d) as char
  }

  /** The value of a string of ASCII digits read in base 10, leading zeros allowed
      (what `parseInt(s, 10)` returns for such a string). */
  function DigitsValue(s: string): nat
    requires AllDigits(s)
    decreases |s|
  {
    if s == [] then 0 else 10 * DigitsValue(s[..|s| - 1]) + DigitValue(s[|s| - 1])
  }

  /** `String(n)` for a non-negative integer: at least one digit and no leading zero. */
  function NatToString(n: nat): (s: string)
    ensures |s| > 0 && AllDigits(s)
    ensures |s| > 1 ==> s[0] != '0'
  {
    if n < 10 then [DigitChar(n)] else NatToString(n / 10) + [DigitChar(n % 10)]
  }

  /** Reading back the decimal text of `n` gives `n`. */
  lemma {:induction false} NatToStringRoundTrip(n: nat)
    ensures DigitsValue(NatToString(n)) == n
  {
    var s := NatToString(n);
    if n >= 10 {
      NatToStringRoundTrip(n / 10);
      assert s[..|s| - 1] == NatToString(n / 10);
    }
  }

  /** `String(n)` for any integer: a minus sign before the digits of a negative number. */
  function IntToString(n: int): (s: string)
    ensures |s| > 0 && (s[0] == '-' || IsDigit(s[0]))
  {
    if n < 0 then "-" + NatToString(-n) else NatToString(n)
  }

  /** Reads an optionally signed run of decimal digits; `None` for any other text. */
  function ParseDecimal(s: string): (r: Option<int>)
  {
    if |s| > 1 && s[0] == '-' && AllDigits(s[1..]) then Some(-(DigitsValue(s[1..]) as int))
    else if |s| > 0 && AllDigits(s) then Some(DigitsValue(s))
    else None
  }

  /** The decimal text of an integer reads back as that integer. */
  lemma IntToStringRoundTrip(n: int)
    ensures ParseDecimal(IntToString(n)) == Some(n)
  {
    if n < 0 {
      NatToStringRoundTrip(-n);
      assert IntToString(n)[1..] == NatToString(-n);
    } else {
      NatToStringRoundTrip(n);
    }
  }

  /** Distinct integers have distinct decimal texts. */
  lemma IntToStringInjective(a: int, b: int)
    ensures IntToString(a) == IntToString(b) ==> a == b
  {
    IntToStringRoundTrip(a);
    IntToStringRoundTrip(b);
  }
}
