/**
 * Java's decimal rendering of a `Long` when it is concatenated to a string
 * (`"..." + id`), and its inverse.
 */
module Decimal {
  import opened Wrappers

  predicate IsDigit(c: char) {
    '0' <= c <= '9'
  }

  function DigitChar(d: int): char
    requires 0 <= d < 10
  {
    ('0' as int + d) as char
  }

  /** The decimal digits of `n`, most significant first, with no leading zero. */
  function NatToString(n: nat): (r: string)
    ensures |r| >= 1
    ensures forall i :: 0 <= i < |r| ==> IsDigit(r[i])
    ensures r[0] == '0' <==> n == 0
    decreases n
  {
    if n < 10 then [DigitChar(n)] else NatToString(n / 10) + [DigitChar(n % 10)]
  }

  /** `Long.toString(i)`: a minus sign before the digits of a negative number. */
  function IntToString(i: int): string {
    if i < 0 then "-" + NatToString(-i) else NatToString(i)
  }

  /** The value of a string of decimal digits. */
  function DigitsValue(s: string): nat
    requires forall i :: 0 <= i < |s| ==> IsDigit(s[i])
  {
    if s == [] then 0
    else
      assert IsDigit(s[|s| - 1]);
      DigitsValue(s[..|s| - 1]) * 10 + (s[|s| - 1] as int - '0' as int)
  }

  /** Reads back what `IntToString` writes: an optional minus sign and at least one digit. */
  function ParseInt(s: string): Option<int> {
    if |s| >= 2 && s[0] == '-' && forall i :: 1 <= i < |s| ==> IsDigit(s[i]) then
      var v := -(DigitsValue(s[1..]) as int);
      Some(v)
    else if |s| >= 1 && forall i :: 0 <= i < |s| ==> IsDigit(s[i]) then
      Some(DigitsValue(s))
    else
      None
  }

  lemma {:induction false} DigitsValueOfNatToString(n: nat)
    ensures DigitsValue(NatToString(n)) == n
    decreases n
  {
    if n >= 10 {
      var s := NatToString(n);
      DigitsValueOfNatToString(n / 10);
      assert s[..|s| - 1] == NatToString(n / 10);
      assert DigitsValue(s) == (n / 10) * 10 + n % 10;
    }
  }

  /** Parsing the rendering of any integer gives the integer back. */
  lemma ParseIntToString(i: int)
    ensures ParseInt(IntToString(i)) == Some(i)
  {
    var s := IntToString(i);
    if i < 0 {
      DigitsValueOfNatToString(-i);
      assert s[1..] == NatToString(-i);
    } else {
      DigitsValueOfNatToString(i);
    }
  }

  /** Distinct integers have distinct renderings. */
  lemma IntToStringInjective(i: int, j: int)
    requires IntToString(i) == IntToString(j)
    ensures i == j
  {
    ParseIntToString(i);
    ParseIntToString(j);
  }

  /** A rendering holds only digits and a leading minus sign; in particular no colon. */
  lemma IntToStringChars(i: int)
    ensures forall k :: 0 <= k < |IntToString(i)| ==> IsDigit(IntToString(i)[k]) || IntToString(i)[k] == '-'
  {
  }
}
