// The proleptic Gregorian calendar as JavaScript computes it: Date.UTC and getUTC*, sections 21.4.1.3 to
// 21.4.1.31 and 21.4.3.4 of ECMA-262. Days are counted from 1970-01-01.
module Calendar {

  datatype Civil = Civil(year: int, month: int, day: int) {
    // A date that exists in the calendar.
    predicate Exists() {
      1 <= month <= 12 && 1 <= day <= MonthStart(Leap(year), month) - MonthStart(Leap(year), month - 1)
    }
  }

  predicate Leap(y: int) {
    y % 4 == 0 && (y % 100 != 0 || y % 400 == 0)
  }

  function DaysInYear(y: int): int {
    if Leap(y) then 366 else 365
  }

  function DayFromYear(y: int): int {
    365 * (y - 1970) + (y - 1969) / 4 - (y - 1901) / 100 + (y - 1601) / 400
  }

  // Day of the year on which the month after the first m months starts.
  function MonthStart(leap: bool, m: int): int
    requires 0 <= m <= 12
  {
    var l := if leap then 1 else 0;
    match m
    case 0 => 0
    case 1 => 31
    case 2 => 59 + l
    case 3 => 90 + l
    case 4 => 120 + l
    case 5 => 151 + l
    case 6 => 181 + l
    case 7 => 212 + l
    case 8 => 243 + l
    case 9 => 273 + l
    case 10 => 304 + l
    case 11 => 334 + l
    case 12 => 365 + l
  }

  lemma YearStep(y: int)
    ensures DayFromYear(y + 1) == DayFromYear(y) + DaysInYear(y)
  {
    FloorStep(y, 1969, 4);
    FloorStep(y, 1901, 100);
    FloorStep(y, 1601, 400);
    MultiplesNest(y);
  }

  // A floored quotient grows by one when the year reaches a multiple of the divisor.
  lemma FloorStep(y: int, base: int, d: int)
    requires (base == 1969 && d == 4) || (base == 1901 && d == 100) || (base == 1601 && d == 400)
    ensures (y + 1 - base) / d == (y - base) / d + if y % d == 0 then 1 else 0
  {
  }

  lemma MultiplesNest(y: int)
    ensures (y % 400 == 0 ==> y % 100 == 0) && (y % 100 == 0 ==> y % 4 == 0)
  {
  }

  lemma {:induction false} YearsIncrease(y: int, z: int)
    requires y <= z
    ensures DayFromYear(z) - DayFromYear(y) >= 365 * (z - y)
    decreases z - y
  {
    if y < z {
      YearsIncrease(y, z - 1);
      YearStep(z - 1);
    }
  }

  // YearFromTime: the year y with DayFromYear(y) <= d < DayFromYear(y + 1).
  function YearOfDay(d: int): (y: int)
    ensures DayFromYear(y) <= d < DayFromYear(y + 1)
  {
    var guess := 1970 + (if d >= 0 then d / 366 else d / 365);
    YearFrom(d, guess)
  }

  function YearFrom(d: int, y: int): (r: int)
    requires DayFromYear(y) <= d
    ensures DayFromYear(r) <= d < DayFromYear(r + 1)
    decreases d - DayFromYear(y)
  {
    YearStep(y);
    if DayFromYear(y + 1) <= d then YearFrom(d, y + 1) else y
  }

  function MonthOf(leap: bool, k: int): (m: int)
    requires 0 <= k < (if leap then 366 else 365)
    ensures 1 <= m <= 12 && MonthStart(leap, m - 1) <= k < MonthStart(leap, m)
  {
    if k < MonthStart(leap, 1) then 1
    else if k < MonthStart(leap, 2) then 2
    else if k < MonthStart(leap, 3) then 3
    else if k < MonthStart(leap, 4) then 4
    else if k < MonthStart(leap, 5) then 5
    else if k < MonthStart(leap, 6) then 6
    else if k < MonthStart(leap, 7) then 7
    else if k < MonthStart(leap, 8) then 8
    else if k < MonthStart(leap, 9) then 9
    else if k < MonthStart(leap, 10) then 10
    else if k < MonthStart(leap, 11) then 11
    else 12
  }

  // getUTCFullYear, getUTCMonth() + 1 and getUTCDate of midnight on day d.
  function CivilOfDay(d: int): (c: Civil)
    ensures c.Exists()
  {
    var y := YearOfDay(d);
    YearStep(y);
    var k := d - DayFromYear(y);
    var m := MonthOf(Leap(y), k);
    Civil(y, m, k - MonthStart(Leap(y), m - 1) + 1)
  }

  // Date.UTC(year, month, day) / MS_PER_DAY. Months are counted from 0 and may overflow into other years, days may
  // overflow into other months, and the years 0 to 99 mean 1900 to 1999.
  function UtcDay(year: int, month: int, day: int): int {
    var y := (if 0 <= year <= 99 then 1900 + year else year) + month / 12;
    DayFromYear(y) + MonthStart(Leap(y), month % 12) + day - 1
  }

  lemma {:induction false} YearUnique(d: int, y: int)
    requires DayFromYear(y) <= d < DayFromYear(y + 1)
    ensures YearOfDay(d) == y
  {
  }

  // The day number of the k-th day of year y, written as a month and a day of that year.
  lemma UtcDayInYear(y: int, k: int, month: int, day: int)
    requires 1 <= month <= 12 && !(0 <= y <= 99)
    requires day == k - MonthStart(Leap(y), month - 1) + 1
    ensures UtcDay(y, month - 1, day) == DayFromYear(y) + k
  {
  }

  lemma TwoDigitYearMoves(y: int, month: int, day: int)
    requires 1 <= month <= 12 && 1 <= day && 0 <= y <= 99
    ensures UtcDay(y, month - 1, day) >= DayFromYear(y + 1)
  {
    assert (month - 1) / 12 == 0 && (month - 1) % 12 == month - 1;
    assert MonthStart(Leap(1900 + y), month - 1) >= 0;
    YearsIncrease(y + 1, 1900 + y);
  }

  // The civil date of a day number reads back as that day number; Date.UTC fails at it exactly for the two-digit years.
  lemma CivilDateReadsBack(d: int)
    ensures var c := CivilOfDay(d);
      UtcDay(c.year, c.month - 1, c.day) == d <==> !(0 <= c.year <= 99)
  {
    var c := CivilOfDay(d);
    if 0 <= c.year <= 99 {
      TwoDigitYearMoves(c.year, c.month, c.day);
    } else {
      UtcDayInYear(c.year, d - DayFromYear(c.year), c.month, c.day);
    }
  }

  function DayOfYear(c: Civil): (k: int)
    requires c.Exists()
    ensures 0 <= k < DaysInYear(c.year) && MonthOf(Leap(c.year), k) == c.month
    ensures k - MonthStart(Leap(c.year), c.month - 1) + 1 == c.day
  {
    MonthStart(Leap(c.year), c.month - 1) + c.day - 1
  }

  lemma CivilInYear(y: int, k: int)
    requires 0 <= k < DaysInYear(y)
    ensures var m := MonthOf(Leap(y), k);
      CivilOfDay(DayFromYear(y) + k) == Civil(y, m, k - MonthStart(Leap(y), m - 1) + 1)
    ensures YearOfDay(DayFromYear(y) + k) == y
  {
    hide DayFromYear, MonthOf, MonthStart, YearOfDay;
    YearStep(y);
    YearUnique(DayFromYear(y) + k, y);
  }

  // Every existing date of a year outside 0 to 99 is the civil date of its own day number.
  lemma DayNumberReadsBack(c: Civil)
    requires c.Exists() && !(0 <= c.year <= 99)
    ensures CivilOfDay(UtcDay(c.year, c.month - 1, c.day)) == c
    ensures YearOfDay(UtcDay(c.year, c.month - 1, c.day)) == c.year
  {
    hide DayFromYear, UtcDay, CivilOfDay, YearOfDay, DaysInYear, MonthStart, MonthOf, Leap, DayOfYear;
    var k := DayOfYear(c);
    UtcDayInYear(c.year, k, c.month, c.day);
    CivilInYear(c.year, k);
  }

  // Years are in the same order as their days.
  lemma YearAtLeast(d: int, lo: int)
    ensures lo <= YearOfDay(d) <==> DayFromYear(lo) <= d
  {
  }

  // ----- the calendar, day by day -----

  function LengthOfMonth(year: int, month: int): int {
    if month == 2 then (if year % 400 == 0 || (year % 4 == 0 && year % 100 != 0) then 29 else 28)
    else if month in {4, 6, 9, 11} then 30
    else 31
  }

  function DayAfter(c: Civil): Civil {
    if c.day < LengthOfMonth(c.year, c.month) then Civil(c.year, c.month, c.day + 1)
    else if c.month < 12 then Civil(c.year, c.month + 1, 1)
    else Civil(c.year + 1, 1, 1)
  }

  lemma MonthLengths(year: int, month: int)
    requires 1 <= month <= 12
    ensures MonthStart(Leap(year), month) - MonthStart(Leap(year), month - 1) == LengthOfMonth(year, month)
  {
    MultiplesNest(year);
  }

  lemma MonthsInOrder(leap: bool, m: int, n: int)
    requires 0 <= m < n <= 12
    ensures MonthStart(leap, m) + 28 <= MonthStart(leap, n)
  {
  }

  lemma MonthIs(leap: bool, k: int, m: int)
    requires 1 <= m <= 12 && MonthStart(leap, m - 1) <= k < MonthStart(leap, m) && 0 <= k < if leap then 366 else 365
    ensures MonthOf(leap, k) == m
  {
    hide MonthStart;
    var n := MonthOf(leap, k);
    if n < m && n < m - 1 { MonthsInOrder(leap, n, m - 1); }
    if m < n && m < n - 1 { MonthsInOrder(leap, m, n - 1); }
  }

  lemma YearLength(leap: bool)
    ensures MonthStart(leap, 0) == 0 && MonthStart(leap, 1) == 31
    ensures MonthStart(leap, 12) == if leap then 366 else 365
  {
  }

  // The k-th day of a year is the given date, its month being m.
  lemma CivilIs(y: int, k: int, m: int)
    requires 1 <= m <= 12 && 0 <= k < DaysInYear(y) && MonthStart(Leap(y), m - 1) <= k < MonthStart(Leap(y), m)
    ensures CivilOfDay(DayFromYear(y) + k) == Civil(y, m, k - MonthStart(Leap(y), m - 1) + 1)
  {
    CivilInYear(y, k);
    MonthIs(Leap(y), k, m);
    hide CivilOfDay, DayFromYear, MonthStart, Leap;
  }

  lemma NextInYear(y: int, k: int)
    requires 0 <= k && k + 1 < DaysInYear(y)
    ensures CivilOfDay(DayFromYear(y) + k + 1) == DayAfter(CivilOfDay(DayFromYear(y) + k))
  {
    hide CivilOfDay, DayFromYear, MonthStart, LengthOfMonth, Leap, MonthOf;
    var m := MonthOf(Leap(y), k);
    CivilIs(y, k, m);
    MonthLengths(y, m);
    assert DayFromYear(y) + (k + 1) == DayFromYear(y) + k + 1;
    if k + 1 < MonthStart(Leap(y), m) {
      CivilIs(y, k + 1, m);
    } else {
      NextMonthStarts(Leap(y), m);
      CivilIs(y, k + 1, m + 1);
    }
  }

  lemma NextMonthStarts(leap: bool, m: int)
    requires 1 <= m <= 12 && MonthStart(leap, m) < if leap then 366 else 365
    ensures m < 12 && MonthStart(leap, m) < MonthStart(leap, m + 1)
  {
  }

  lemma NextYear(y: int)
    ensures CivilOfDay(DayFromYear(y)) == Civil(y, 1, 1)
    ensures CivilOfDay(DayFromYear(y) + DaysInYear(y) - 1) == Civil(y, 12, 31)
  {
    YearLength(Leap(y));
    MonthLengths(y, 1);
    MonthLengths(y, 12);
    assert LengthOfMonth(y, 1) == LengthOfMonth(y, 12) == 31;
    hide CivilOfDay, DayFromYear, MonthStart, LengthOfMonth, Leap;
    CivilIs(y, 0, 1);
    CivilIs(y, DaysInYear(y) - 1, 12);
    assert DayFromYear(y) + 0 == DayFromYear(y);
    assert DayFromYear(y) + (DaysInYear(y) - 1) == DayFromYear(y) + DaysInYear(y) - 1;
  }

  lemma LastDayOfYear(y: int)
    ensures CivilOfDay(DayFromYear(y + 1)) == DayAfter(CivilOfDay(DayFromYear(y + 1) - 1))
  {
    YearStep(y);
    NextYear(y);
    NextYear(y + 1);
    hide CivilOfDay, DayFromYear, DaysInYear;
  }

  lemma Epoch()
    ensures CivilOfDay(0) == Civil(1970, 1, 1)
  {
    hide CivilOfDay, DaysInYear;
    EpochYear();
    hide DayFromYear;
    NextYear(1970);
  }

  lemma EpochYear()
    ensures DayFromYear(1970) == 0
  {
  }

  // The civil dates of the days are those of the Gregorian calendar, counted forwards and backwards from 1970-01-01.
  lemma CivilDatesFollow(d: int)
    ensures CivilOfDay(0) == Civil(1970, 1, 1)
    ensures CivilOfDay(d + 1) == DayAfter(CivilOfDay(d))
  {
    var y := YearOfDay(d);
    hide CivilOfDay, DayFromYear, DaysInYear, DayAfter, YearOfDay;
    Epoch();
    YearStep(y);
    var k := d - DayFromYear(y);
    assert DayFromYear(y) + k == d;
    if k + 1 < DaysInYear(y) {
      NextInYear(y, k);
    } else {
      LastDayOfYear(y);
      assert d == DayFromYear(y + 1) - 1;
    }
  }
}
