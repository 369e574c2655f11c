/** Python's `str(n)` for integers, as used in the `HTTP <code>: <text>`
    error details and the row-limit message. */
module Decimal {

  /** The ASCII digit for `d`. */
  function DigitChar(d: nat): (c: char)
    requires d < 10
    ensures '0' <= c <= '9'
  {
    ('0' as int + d) as char
  }

  predicate IsDigit(c: char) {
    '0' <= c <= '9'
  }

  /** The numeric value of a string of ASCII digits, most significant first. */
  function ValueOf(s: string): nat
    requires forall i :: 0 <= i < |s| ==> IsDigit(s[i])
  {
    if |s| == 0 then 0
    else
      assert IsDigit(s[|s| - 1]);
      ValueOf(s[..|s| - 1]) * 10 + (s[|s| - 1] as int - '0' as int)
  }

  /** The shortest decimal rendering of `n`: nonempty, all digits, and with no
      leading zero unless it is `0` itself. */
  function FromNat(n: nat): (s: string)
    ensures |s| >= 1
    ensures forall i :: 0 <= i < |s| ==> IsDigit(s[i])
    ensures s[0] == '0' ==> n == 0
  {
    if n < 10 then [DigitChar(n)] else FromNat(n / 10) + [DigitChar(n % 10)]
  }

  /** Reading the rendering back gives the number: `int(str(n)) == n`. */
  lemma {:induction false} FromNatRoundTrip(n: nat)
    ensures ValueOf(FromNat(n)) == n
  {
    if n >= 10 {
      var s := FromNat(n);
      assert s[..|s| - 1] == FromNat(n / 10);
      FromNatRoundTrip(n / 10);
    }
  }

  /** `str(i)` for any integer: a minus sign exactly for negative values,
      followed by the digits of the magnitude. */
  function FromInt(i: int): (s: string)
    ensures |s| >= 1
    ensures s[0] == '-' <==> i < 0
    ensures i < 0 ==> s[1..] == FromNat(-i)
    ensures i >= 0 ==> s == FromNat(i)
  {
    if i < 0 then "-" + FromNat(-i) else FromNat(i)
  }
}
