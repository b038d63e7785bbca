// Decimal text: how numbers become characters in date keys and CSV cells, and how they are read back.
module Decimal {

  predicate IsDigit(c: char) {
    '0' <= c <= '9'
  }

  predicate AllDigits(s: string) {
    forall i :: 0 <= i < |s| ==> IsDigit(s[i])
  }

  function DigitChar(d: nat): (c: char)
    requires d < 10
    ensures IsDigit(c) && DigitValue(c) == d
  {
    (d + 48) as char
  }

  function DigitValue(c: char): (d: nat)
    requires IsDigit(c)
    ensures d < 10
  {
    c as int - 48
  }

  // String(n) for a non-negative integer: no leading zeros.
  function Natural(n: nat): string {
    if n < 10 then [DigitChar(n)] else Natural(n / 10) + [DigitChar(n % 10)]
  }

  // String(n) for any integer.
  function Integer(n: int): string {
    if n < 0 then "-" + Natural(-n) else Natural(n)
  }

  // Number(s) for a string of digits.
  function NumberOf(s: string): nat
    requires AllDigits(s)
  {
    if s == [] then 0 else 10 * NumberOf(s[..|s| - 1]) + DigitValue(s[|s| - 1])
  }

  // String(n).padStart(2, '0')
  function Pad2(n: nat): string {
    if n < 10 then "0" + Natural(n) else Natural(n)
  }

  lemma {:induction false} NaturalReadsBack(n: nat)
    ensures Natural(n) != [] && AllDigits(Natural(n)) && NumberOf(Natural(n)) == n
  {
    if n < 10 {
      assert Natural(n)[..0] == [];
    } else {
      NaturalReadsBack(n / 10);
      assert Natural(n)[..|Natural(n)| - 1] == Natural(n / 10);
    }
  }

  function Pow10(k: nat): (p: nat)
    ensures p >= 1
  {
    if k == 0 then 1 else 10 * Pow10(k - 1)
  }

  // The text of n has exactly k digits when 10^(k-1) <= n < 10^k.
  lemma {:induction false} NaturalLength(n: nat, k: nat)
    requires k >= 1
    ensures |Natural(n)| <= k <==> n < Pow10(k)
  {
    if n < 10 {
      assert Pow10(k) >= 10 by { assert Pow10(k) == 10 * Pow10(k - 1); }
    } else if k == 1 {
      NaturalReadsBack(n / 10);
      assert Pow10(1) == 10 * Pow10(0);
    } else {
      NaturalLength(n / 10, k - 1);
      assert Pow10(k) == 10 * Pow10(k - 1);
    }
  }

  lemma {:induction false} Pad2ReadsBack(n: nat)
    requires n < 100
    ensures |Pad2(n)| == 2 && AllDigits(Pad2(n)) && NumberOf(Pad2(n)) == n
  {
    NaturalReadsBack(n);
    NaturalLength(n, 1);
    NaturalLength(n, 2);
    assert Pow10(1) == 10 && Pow10(2) == 100 by { assert Pow10(2) == 10 * Pow10(1); }
    if n < 10 {
      assert Natural(n) == [DigitChar(n)];
      assert Pad2(n)[..1] == "0" && "0"[..0] == [];
      assert NumberOf("0") == 0;
    }
  }
}
