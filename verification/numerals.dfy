/** Decimal text of integers: JavaScript's template-literal rendering of an
    integer-valued number, and PostgreSQL's cast of text to `int`. */
module Numerals {
  import opened Wrappers

  /** Bounds of PostgreSQL's `int` (a signed 32-bit integer). */
  const MinInt4: int := -0x8000_0000
  const MaxInt4: int := 0x7FFF_FFFF

  predicate IsDigit(c: char) { '0' <= c <= '9' }

  predicate AllDigits(s: string) { forall i :: 0 <= i < |s| ==> IsDigit(s[i]) }

  function DigitValue(c: char): (d: nat)
    requires IsDigit(c)
    ensures d < 10
  {
    c as int - '0' as int
  }

  function DigitChar(d: nat): (c: char)
    requires d < 10
    ensures IsDigit(c) && DigitValue(c) == d
  {
    ('0' as int + d) as char
  }

  /** The value of a string of decimal digits, most significant first. */
  function DigitsValue(s: string): nat
    requires AllDigits(s)
  {
    if s == [] then 0 else DigitsValue(s[..|s| - 1]) * 10 + DigitValue(s[|s| - 1])
  }

  /** `${n}` for a non-negative integer: its digits, without leading zeros. */
  function NatToString(n: nat): (s: string)
    ensures |s| > 0 && AllDigits(s)
    ensures s[0] == '0' ==> s == "0"
  {
    if n < 10 then [DigitChar(n)] else NatToString(n / 10) + [DigitChar(n % 10)]
  }

  /** `${n}` for an integer: a minus sign before the digits of a negative one. */
  function IntToString(n: int): (s: string)
    ensures |s| > 0
    ensures s[0] == '-' <==> n < 0
  {
    if n < 0 then "-" + NatToString(-n) else NatToString(n)
  }

  /** Integer text as the database reads it: an optional sign and at least one digit. */
  function ParseInteger(s: string): (r: Option<int>)
  {
    if |s| > 0 && (s[0] == '-' || s[0] == '+') then
      if |s| > 1 && AllDigits(s[1..]) then
        var v: int := DigitsValue(s[1..]);
        Some(if s[0] == '-' then -v else v)
      else None
    else if |s| > 0 && AllDigits(s) then Some(DigitsValue(s))
    else None
  }

  /** `s::int`: the integer text must also fit in 32 bits, else the cast fails. */
  function ParseInt4(s: string): (r: Option<int>)
    ensures r.Some? ==> MinInt4 <= r.value <= MaxInt4
    ensures r.Some? ==> ParseInteger(s) == r
    ensures ParseInteger(s).Some? && MinInt4 <= ParseInteger(s).value <= MaxInt4 ==>
      r == ParseInteger(s)
  {
    match ParseInteger(s)
    case Some(v) => if MinInt4 <= v <= MaxInt4 then Some(v) else None
    case None => None
  }

  lemma {:induction false} DigitsValueSnoc(s: string, c: char)
    requires AllDigits(s) && IsDigit(c)
    ensures AllDigits(s + [c]) && DigitsValue(s + [c]) == DigitsValue(s) * 10 + DigitValue(c)
  {
    assert (s + [c])[..|s + [c]| - 1] == s;
  }

  /** Reading back the digits JavaScript writes gives the number again. */
  lemma {:induction false} NatToStringRoundTrip(n: nat)
    ensures DigitsValue(NatToString(n)) == n
  {
    if n >= 10 {
      NatToStringRoundTrip(n / 10);
      DigitsValueSnoc(NatToString(n / 10), DigitChar(n % 10));
    }
  }

  /** The database reads `${n}` back as n. */
  lemma IntToStringRoundTrip(n: int)
    ensures ParseInteger(IntToString(n)) == Some(n)
    ensures MinInt4 <= n <= MaxInt4 <==> ParseInt4(IntToString(n)) == Some(n)
  {
    if n < 0 {
      NatToStringRoundTrip(-n);
      assert IntToString(n)[1..] == NatToString(-n);
    } else {
      NatToStringRoundTrip(n);
    }
  }

  /** Two integers are rendered alike exactly when they are equal, so a
      confirmation token names one number only. */
  lemma IntToStringInjective(a: int, b: int)
    ensures IntToString(a) == IntToString(b) <==> a == b
  {
    if IntToString(a) == IntToString(b) {
      IntToStringRoundTrip(a);
      IntToStringRoundTrip(b);
    }
  }
}
