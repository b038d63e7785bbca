// Splitting gross amounts into net amount and tax. Amounts are integer cents, rates hundredths of a percent.
module VatRounding {
  import opened Options
  import opened Groups

  datatype UstSchluessel = Allgemein | Ermaessigt | NichtSteuerbar | Umsatzsteuerfrei

  // The key of a rate; None where the mapping throws.
  function UstSchluesselFor(rate: int, vatExempt: bool): Option<UstSchluessel> {
    if vatExempt then Some(Umsatzsteuerfrei)
    else if rate == 1900 then Some(Allgemein)
    else if rate == 700 then Some(Ermaessigt)
    else if rate == 0 then Some(NichtSteuerbar)
    else None
  }

  // The rate that a key of a taxable organization stands for.
  function RateOf(key: UstSchluessel): (rate: int)
    ensures rate >= 0
    ensures UstSchluesselFor(rate, false) == Some(key) <==> key != Umsatzsteuerfrei
  {
    match key
    case Allgemein => 1900
    case Ermaessigt => 700
    case NichtSteuerbar => 0
    case Umsatzsteuerfrei => 0
  }

  // Math.round of n / d: the nearest integer, ties upwards.
  function Round(n: int, d: int): int
    requires d > 0
  {
    (2 * n + d) / (2 * d)
  }

  // 100 percent, in hundredths of a percent.
  const WHOLE := 10000

  function Netto(brutto: int, rate: int): int
    requires rate >= 0
  {
    Round(brutto * WHOLE, WHOLE + rate)
  }

  function Ust(brutto: int, rate: int): int
    requires rate >= 0
  {
    brutto - Netto(brutto, rate)
  }

  lemma DivIs(n: int, d: int, q: int)
    requires d > 0
    ensures q == n / d <==> d * q <= n < d * q + d
  {
    var p := n / d;
    assert n == d * p + n % d;
    if d * q <= n < d * q + d && q != p {
      assert d * (q - p) == d * q - d * p;
      if q > p { ScaleAtLeast(d, q - p); } else { ScaleAtLeast(d, p - q); }
    }
  }

  lemma ScaleAtLeast(d: int, k: int)
    requires d > 0 && k >= 1
    ensures d * k >= d
  {
  }

  // Rounding is at most half a unit off, and the only integer that is, with ties upwards.
  lemma RoundIsNearest(n: int, d: int, r: int)
    requires d > 0
    ensures r == Round(n, d) <==> -d < 2 * (d * r) - 2 * n <= d
  {
    DivIs(2 * n + d, 2 * d, r);
    assert (2 * d) * r == 2 * (d * r);
  }

  // The split of the opposite amount is the opposite split exactly when the exact net amount is no tie.
  lemma SplitOfOpposite(brutto: int, rate: int)
    requires rate >= 0
    ensures Netto(-brutto, rate) == -Netto(brutto, rate) && Ust(-brutto, rate) == -Ust(brutto, rate) <==>
      2 * ((WHOLE + rate) * Netto(brutto, rate)) - 2 * (brutto * WHOLE) != WHOLE + rate
  {
    var d, n, r := WHOLE + rate, brutto * WHOLE, Netto(brutto, rate);
    RoundIsNearest(n, d, r);
    RoundIsNearest(-n, d, -r);
    assert d * -r == -(d * r) && (-brutto) * WHOLE == -n;
  }

  // At 19, 7 and 0 percent there are no ties, so a reversal is split exactly opposite to what it reverses.
  lemma KeyedSplitsReverse(brutto: int, key: UstSchluessel)
    ensures Netto(-brutto, RateOf(key)) == -Netto(brutto, RateOf(key))
    ensures Ust(-brutto, RateOf(key)) == -Ust(brutto, RateOf(key))
  {
    var rate := RateOf(key);
    var r := Netto(brutto, rate);
    SplitOfOpposite(brutto, rate);
    match key
    case Allgemein => EvenIsNotOdd(100 * brutto, 119, r);
    case Ermaessigt => EvenIsNotOdd(100 * brutto, 107, r);
    case NichtSteuerbar => EvenIsNotOdd(brutto, 1, r);
    case Umsatzsteuerfrei => EvenIsNotOdd(brutto, 1, r);
  }

  lemma EvenIsNotOdd(x: int, odd: int, r: int)
    requires odd % 2 == 1
    ensures 2 * x != odd * (2 * r - 1)
  {
    var h := odd / 2;
    assert odd * (2 * r - 1) == 2 * (odd * r) - 2 * h - 1;
  }

  function NettoAt(rate: int): int -> int
    requires rate >= 0
  {
    brutto => Netto(brutto, rate)
  }

  lemma {:induction false} SumOfNettos(amounts: seq<int>, rate: int)
    requires rate >= 0
    ensures var d, s, t := WHOLE + rate, Sum(amounts, NettoAt(rate)), Sum(amounts, Itself());
      -(|amounts| * d) <= 2 * (d * s) - 2 * (t * WHOLE) <= |amounts| * d
  {
    var d := WHOLE + rate;
    if amounts != [] {
      var init, b := amounts[..|amounts| - 1], amounts[|amounts| - 1];
      SumOfNettos(init, rate);
      var s, t := Sum(init, NettoAt(rate)), Sum(init, Itself());
      RoundIsNearest(b * WHOLE, d, Netto(b, rate));
      assert d * (s + Netto(b, rate)) == d * s + d * Netto(b, rate);
      assert |amounts| * d == |init| * d + d by { assert (|init| + 1) * d == |init| * d + d; }
    }
  }

  // Rounding n amounts one by one and rounding their sum differ by at most (n + 1) / 2 cents.
  lemma LineRoundingDrift(amounts: seq<int>, rate: int)
    requires rate >= 0
    ensures var drift := Sum(amounts, NettoAt(rate)) - Netto(Sum(amounts, Itself()), rate);
      -(|amounts| + 1) <= 2 * drift <= |amounts| + 1
  {
    var d, s, t := WHOLE + rate, Sum(amounts, NettoAt(rate)), Sum(amounts, Itself());
    var n := Netto(t, rate);
    SumOfNettos(amounts, rate);
    RoundIsNearest(t * WHOLE, d, n);
    DriftBound(d, s, n, t * WHOLE, |amounts|);
  }

  // They agree exactly if the sum of the rounded amounts is itself within half a cent of the exact net sum, ties upwards.
  lemma LineRoundingIsExactIff(amounts: seq<int>, rate: int)
    requires rate >= 0
    ensures var d, s, t := WHOLE + rate, Sum(amounts, NettoAt(rate)), Sum(amounts, Itself());
      s == Netto(t, rate) <==> -d < 2 * (d * s) - 2 * (t * WHOLE) <= d
  {
    RoundIsNearest(Sum(amounts, Itself()) * WHOLE, WHOLE + rate, Sum(amounts, NettoAt(rate)));
  }

  // An amount so small, or a rate so low, that the tax on it rounds to nothing.
  predicate TaxRoundsAway(brutto: int, rate: int) {
    -(WHOLE + rate) < 2 * (brutto * rate) <= WHOLE + rate
  }

  lemma NoTaxIff(brutto: int, rate: int)
    requires rate >= 0
    ensures Ust(brutto, rate) == 0 <==> TaxRoundsAway(brutto, rate)
  {
    RoundIsNearest(brutto * WHOLE, WHOLE + rate, brutto);
    assert (WHOLE + rate) * brutto == brutto * WHOLE + brutto * rate;
  }

  lemma DriftBound(d: int, s: int, n: int, exact: int, m: nat)
    requires d > 0 && -(m * d) <= 2 * (d * s) - 2 * exact <= m * d && -d < 2 * (d * n) - 2 * exact <= d
    ensures -(m + 1) <= 2 * (s - n) <= m + 1
  {
    var x := 2 * (s - n);
    assert d * x == 2 * (d * s) - 2 * (d * n) && d * -x == -(d * x);
    assert d * (m + 1) == m * d + d;
    Cancel(d, x, m + 1);
    Cancel(d, -x, m + 1);
  }

  lemma Cancel(d: int, x: int, y: int)
    requires d > 0 && d * x <= d * y
    ensures x <= y
  {
    if x > y {
      ScaleAtLeast(d, x - y);
    }
  }
}
