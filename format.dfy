/**
 * Decimal rendering of integers, as Python's f-string `{n}` formats an `int`:
 * an optional minus sign followed by the digits, most significant first,
 * without leading zeros.
 */
module Format {

  predicate IsDigit(c: char)
  {
    '0' <= c <= '9'
  }

  predicate AllDigits(s: string)
  {
    forall i :: 0 <= i < |s| ==> IsDigit(s[i])
  }

  function DigitChar(d: nat): (c: char)
    requires d < 10
    ensures IsDigit(c) && (c as int) - ('0' as int) == d
  {
    (('0' as int) + d) as char
  }

  /** The value of a string of decimal digits. */
  function DigitsValue(s: string): nat
    requires AllDigits(s)
  {
    if s == [] then 0
    else 10 * DigitsValue(s[..|s| - 1]) + ((s[|s| - 1] as int) - ('0' as int))
  }

  /** The decimal digits of `n`: at least one, and no leading zero unless
      `n` is zero itself. */
  function NatToDecimal(n: nat): (s: string)
    ensures s != [] && AllDigits(s)
    ensures s[0] == '0' ==> s == "0"
    ensures DigitsValue(s) == n
  {
    if n < 10 then [DigitChar(n)]
    else
      var init := NatToDecimal(n / 10);
      var s := init + [DigitChar(n % 10)];
      assert s[..|s| - 1] == init;
      s
  }

  /** Reads back what `IntToDecimal` writes: an optional minus sign, then
      digits (any other string reads as 0). */
  function DecimalToInt(s: string): int
  {
    if s != [] && s[0] == '-' && AllDigits(s[1..]) then -(DigitsValue(s[1..]) as int)
    else if AllDigits(s) then DigitsValue(s)
    else 0
  }

  /** `str(i)` for a Python `int`: a minus sign exactly for negative
      numbers, then at least one digit with no leading zero (so no "-0"),
      and the text reads back as the same number. */
  function IntToDecimal(i: int): (s: string)
    ensures s != [] && (s[0] == '-' <==> i < 0)
    ensures var d := if i < 0 then s[1..] else s;
      d != [] && AllDigits(d) && (d[0] == '0' ==> d == "0")
    ensures i < 0 ==> s[1..] != "0"
    ensures DecimalToInt(s) == i
  {
    if i < 0 then
      var s := "-" + NatToDecimal(-i);
      assert s[1..] == NatToDecimal(-i);
      s
    else NatToDecimal(i)
  }

  /** A number from 10 to 99 is written with its tens digit, then its units
      digit. */
  lemma TwoDigits(n: nat)
    requires 10 <= n < 100
    ensures NatToDecimal(n) == [DigitChar(n / 10), DigitChar(n % 10)]
  {
    assert NatToDecimal(n / 10) == [DigitChar(n / 10)];
  }
}
