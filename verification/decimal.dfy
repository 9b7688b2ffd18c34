/**
 * Decimal text of integers, as Python's `str(n)` / `f"{n}"` and the
 * zero-padded `f"{n:02}"` produce it, together with the reading-back
 * functions that show the formatting loses nothing.
 */
module Decimal {

  predicate IsDigit(c: char) {
    '0' <= c <= '9'
  }

  predicate AllDigits(s: string) {
    forall i :: 0 <= i < |s| ==> IsDigit(s[i])
  }

  /** Characters that can appear in the decimal text of an int. */
  predicate IsNumeral(c: char) {
    IsDigit(c) || c == '-'
  }

  function DigitChar(d: nat): (c: char)
    requires d < 10
    ensures IsDigit(c)
  {
    ('0' as int + d) as char
  }

  function DigitValue(c: char): (d: nat)
    requires IsDigit(c)
    ensures d < 10
  {
    c as int - '0' as int
  }

  /** The value a string of digits denotes, leading zeros included. */
  function DigitsValue(s: string): nat
    requires AllDigits(s)
  {
    if s == [] then 0 else 10 * DigitsValue(s[..|s| - 1]) + DigitValue(s[|s| - 1])
  }

  /** The value of an optionally signed decimal string. */
  function IntValue(s: string): int
    requires |s| >= 1
    requires s[0] == '-' ==> AllDigits(s[1..])
    requires s[0] != '-' ==> AllDigits(s)
  {
    if s[0] == '-' then -(DigitsValue(s[1..]) as int) else DigitsValue(s)
  }

  /** Decimal text of a natural number: at least one digit, no leading zero. */
  function NatToString(n: nat): (r: string)
    ensures |r| >= 1 && AllDigits(r)
    ensures r[0] == '0' ==> n == 0
    ensures |r| == 1 <==> n < 10
    ensures |r| <= 2 <==> n < 100
    ensures DigitsValue(r) == n
  {
    if n < 10 then
      [DigitChar(n)]
    else
      var prefix := NatToString(n / 10);
      var r := prefix + [DigitChar(n % 10)];
      assert r[..|r| - 1] == prefix;
      r
  }

  /** `str(i)` for an int: a minus sign before the digits of a negative number. */
  function IntToString(i: int): (r: string)
    ensures |r| >= 1
    ensures forall k :: 0 <= k < |r| ==> IsNumeral(r[k])
    ensures r[0] == '-' <==> i < 0
    ensures r[0] == '-' ==> AllDigits(r[1..])
    ensures r[0] != '-' ==> AllDigits(r)
    ensures r[0] == '0' ==> i == 0 && r == "0"
    ensures r[0] == '-' ==> |r| >= 2 && r[1] != '0'
    ensures IntValue(r) == i
  {
    if i < 0 then
      var digits := NatToString(-i);
      var r := "-" + digits;
      assert r[1..] == digits;
      r
    else
      NatToString(i)
  }

  /**
   * `f"{n:02}"`: the decimal text of `n`, padded on the left with zeros to
   * width two. A negative number's sign already fills the width, and numbers
   * above 99 are never cut.
   */
  function Pad2(n: int): (r: string)
    ensures |r| >= 2
    ensures |r| == 2 <==> -9 <= n <= 99
    ensures forall k :: 0 <= k < |r| ==> IsNumeral(r[k])
    ensures r[0] == '-' ==> AllDigits(r[1..])
    ensures r[0] != '-' ==> AllDigits(r)
    ensures r[0] == '0' <==> 0 <= n <= 9
    ensures r[0] == '-' ==> r[1] != '0'
    ensures IntValue(r) == n
  {
    if 0 <= n < 10 then
      var r := "0" + IntToString(n);
      assert r[..1] == "0";
      assert DigitsValue("0") == 0;
      r
    else
      IntToString(n)
  }

  /** Distinct ints have distinct decimal texts. */
  lemma IntToStringInjective(i: int, j: int)
    requires IntToString(i) == IntToString(j)
    ensures i == j
  {
  }

  /** Distinct ints have distinct zero-padded texts. */
  lemma Pad2Injective(i: int, j: int)
    requires Pad2(i) == Pad2(j)
    ensures i == j
  {
  }

  /** `f"{5:02}"` is `05`, `f"{12:02}"` is `12`, `f"{-5:02}"` is `-5` and `f"{100:02}"` is `100`. */
  lemma Pad2Examples()
    ensures Pad2(5) == "05" && Pad2(12) == "12" && Pad2(-5) == "-5" && Pad2(100) == "100"
  {
    assert NatToString(1) == "1" && NatToString(2) == "2";
    assert NatToString(12) == "12";
    assert NatToString(5) == "5";
    assert NatToString(0) == "0" && NatToString(10) == "10";
    assert NatToString(100) == "100";
  }
}
