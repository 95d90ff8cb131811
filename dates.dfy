/** Calendar dates as QDate handles them: a date is its Julian Day Number,
    the proleptic Gregorian calendar gives its year, month and day, and
    the ISO weekday runs from 1 (Monday) to 7 (Sunday).

    Years are numbered astronomically (year 0 is 1 BC). */
module Dates {

  /** A date, as the Julian Day Number QDate stores. */
  type Date = int

  /** Julian Day Number of 0001-01-01 (a Monday). */
  const FirstJanuaryYearOne: int := 1721426

  /** Days in a 400-year Gregorian cycle. */
  const DaysPerEra: int := 146097

  /** QDate::dayOfWeek: 1 = Monday .. 7 = Sunday; Julian Day 0 is a Monday. */
  function DayOfWeek(d: Date): (r: int)
    ensures 1 <= r <= 7
  {
    d % 7 + 1
  }

  /** The Monday that starts the ISO week holding d. */
  function WeekStart(d: Date): (r: Date)
    ensures DayOfWeek(r) == 1
    ensures r <= d <= r + 6
    ensures d == r + DayOfWeek(d) - 1
  {
    var q := d / 7;
    assert d == 7 * q + d % 7;
    assert (7 * q) % 7 == 0;
    d - (DayOfWeek(d) - 1)
  }

  /** Moving by whole weeks keeps the weekday and moves the week's Monday along. */
  lemma {:induction false} WeekStartShift(d: Date, n: int)
    ensures DayOfWeek(d + 7 * n) == DayOfWeek(d)
    ensures WeekStart(d + 7 * n) == WeekStart(d) + 7 * n
  {
    var q := d / 7;
    assert d == 7 * q + d % 7;
    assert d + 7 * n == 7 * (q + n) + d % 7;
    assert (d + 7 * n) % 7 == d % 7;
  }

  /** The Monday of a week never comes before the Monday of an earlier day's week. */
  lemma {:induction false} WeekStartMonotone(d1: Date, d2: Date)
    requires d1 <= d2
    ensures WeekStart(d1) <= WeekStart(d2)
  {
    var q1, q2 := d1 / 7, d2 / 7;
    assert d1 == 7 * q1 + d1 % 7;
    assert d2 == 7 * q2 + d2 % 7;
    assert WeekStart(d1) == 7 * q1 && WeekStart(d2) == 7 * q2;
  }

  // ---------------------------------------------------------------------
  // The proleptic Gregorian calendar

  datatype Civil = Civil(year: int, month: int, day: int)

  predicate IsLeapYear(y: int) {
    y % 4 == 0 && (y % 100 != 0 || y % 400 == 0)
  }

  function DaysInYear(y: int): int {
    if IsLeapYear(y) then 366 else 365
  }

  function DaysInMonth(y: int, m: int): (r: int)
    requires 1 <= m <= 12
    ensures 28 <= r <= 31
  {
    if m == 2 then (if IsLeapYear(y) then 29 else 28)
    else if m == 4 || m == 6 || m == 9 || m == 11 then 30
    else 31
  }

  predicate ValidCivil(c: Civil) {
    1 <= c.month <= 12 && 1 <= c.day <= DaysInMonth(c.year, c.month)
  }

  /** Days of year y that come before the first of month m (m = 13 gives the whole year). */
  function DaysBeforeMonth(y: int, m: int): (r: int)
    requires 1 <= m <= 13
    ensures 0 <= r
  {
    var common :=
      if m == 1 then 0 else if m == 2 then 31 else if m == 3 then 59
      else if m == 4 then 90 else if m == 5 then 120 else if m == 6 then 151
      else if m == 7 then 181 else if m == 8 then 212 else if m == 9 then 243
      else if m == 10 then 273 else if m == 11 then 304 else if m == 12 then 334
      else 365;
    if m > 2 && IsLeapYear(y) then common + 1 else common
  }

  /** Consecutive months follow each other without gaps; December ends the year. */
  lemma MonthLength(y: int, m: int)
    requires 1 <= m <= 12
    ensures DaysBeforeMonth(y, m) + DaysInMonth(y, m) == DaysBeforeMonth(y, m + 1)
    ensures DaysBeforeMonth(y, 13) == DaysInYear(y)
  {
  }

  /** Days from 0001-01-01 to the first of January of year y (negative before year 1). */
  function DaysBeforeYear(y: int): int {
    365 * (y - 1) + (y - 1) / 4 - (y - 1) / 100 + (y - 1) / 400
  }

  /** QDate(y, m, d).toJulianDay() for a valid date. */
  function ToJulianDay(c: Civil): Date
    requires 1 <= c.month <= 12
  {
    FirstJanuaryYearOne + DaysBeforeYear(c.year) + DaysBeforeMonth(c.year, c.month) + c.day - 1
  }

  lemma {:induction false} FloorStep(y: int, k: int)
    requires k == 4 || k == 100 || k == 400
    ensures y / k - (y - 1) / k == if y % k == 0 then 1 else 0
  {
    var q := (y - 1) / k;
    var r := (y - 1) % k;
    assert y - 1 == k * q + r && 0 <= r < k;
    if r == k - 1 {
      assert y == k * (q + 1) + 0;
    } else {
      assert y == k * q + (r + 1) && 0 <= r + 1 < k;
    }
  }

  /** Every fourth century year is a century year, and every century year is a fourth year. */
  lemma {:induction false} DivisorChain(y: int)
    ensures y % 400 == 0 ==> y % 100 == 0
    ensures y % 100 == 0 ==> y % 4 == 0
  {
    if y % 400 == 0 {
      var t := 4 * (y / 400);
      assert y == 100 * t;
      assert y / 100 == t;
    }
    if y % 100 == 0 {
      var t := 25 * (y / 100);
      assert y == 4 * t;
      assert y / 4 == t;
    }
  }

  /** A year is as long as the gap between the first of January and the next one. */
  lemma {:induction false} YearLength(y: int)
    ensures DaysBeforeYear(y + 1) == DaysBeforeYear(y) + DaysInYear(y)
  {
    FloorStep(y, 4);
    FloorStep(y, 100);
    FloorStep(y, 400);
    DivisorChain(y);
    var a, b, c := y / 4 - (y - 1) / 4, y / 100 - (y - 1) / 100, y / 400 - (y - 1) / 400;
    assert DaysBeforeYear(y + 1) == DaysBeforeYear(y) + 365 + a - b + c;
  }

  /** The first day of each 400-year era. */
  lemma {:induction false} EraStart(q: int)
    ensures DaysBeforeYear(400 * q + 1) == DaysPerEra * q
  {
    assert (400 * q) / 4 == 100 * q;
    assert (400 * q) / 100 == 4 * q;
    assert (400 * q) / 400 == q;
  }

  lemma {:induction false} DaysBeforeYearMonotone(y1: int, y2: int)
    requires y1 < y2
    ensures DaysBeforeYear(y1) + DaysInYear(y1) <= DaysBeforeYear(y2)
    decreases y2 - y1
  {
    YearLength(y1);
    if y1 + 1 < y2 {
      DaysBeforeYearMonotone(y1 + 1, y2);
    }
  }

  /** Searches forward from year y for the year holding day offset n (days since 0001-01-01). */
  function FindYear(n: int, y: int): (r: int)
    requires DaysBeforeYear(y) <= n
    ensures DaysBeforeYear(r) <= n < DaysBeforeYear(r) + DaysInYear(r)
    decreases n - DaysBeforeYear(y)
  {
    YearLength(y);
    if n < DaysBeforeYear(y + 1) then y else FindYear(n, y + 1)
  }

  /** Searches forward from month m for the month holding day r of year y. */
  function FindMonth(y: int, r: int, m: int): (res: int)
    requires 1 <= m <= 12
    requires DaysBeforeMonth(y, m) <= r < DaysInYear(y)
    ensures m <= res <= 12
    ensures DaysBeforeMonth(y, res) <= r < DaysBeforeMonth(y, res) + DaysInMonth(y, res)
    decreases 12 - m
  {
    if r < DaysBeforeMonth(y, m) + DaysInMonth(y, m) then m else FindMonth(y, r, m + 1)
  }

  /** The calendar date of Julian Day d (QDate::year/month/day). */
  function FromJulianDay(d: Date): (c: Civil)
    ensures ValidCivil(c)
    ensures ToJulianDay(c) == d
  {
    var n := d - FirstJanuaryYearOne;
    var q := n / DaysPerEra;
    EraStart(q);
    var y := FindYear(n, 400 * q + 1);
    var r := n - DaysBeforeYear(y);
    var m := FindMonth(y, r, 1);
    Civil(y, m, r - DaysBeforeMonth(y, m) + 1)
  }

  /** Within one year, the months follow each other in order. */
  lemma {:induction false} DaysBeforeMonthMonotone(y: int, m1: int, m2: int)
    requires 1 <= m1 < m2 <= 13
    ensures DaysBeforeMonth(y, m1) + DaysInMonth(y, m1) <= DaysBeforeMonth(y, m2)
    decreases m2 - m1
  {
    MonthLength(y, m1);
    if m1 + 1 < m2 {
      DaysBeforeMonthMonotone(y, m1 + 1, m2);
    }
  }

  // ---------------------------------------------------------------------
  // Months counted consecutively: month index 12 * year + (month - 1)

  function MonthIndex(c: Civil): int {
    12 * c.year + (c.month - 1)
  }

  /** The first day of the month with index i. */
  function MonthStart(i: int): Date {
    ToJulianDay(Civil(i / 12, i % 12 + 1, 1))
  }

  /** The month index determines the year and the month. */
  lemma {:induction false} MonthIndexParts(c: Civil)
    requires 1 <= c.month <= 12
    ensures MonthIndex(c) / 12 == c.year && MonthIndex(c) % 12 + 1 == c.month
  {
  }

  /** A date in an earlier month comes earlier. */
  lemma {:induction false} EarlierMonthEarlierDay(c1: Civil, c2: Civil)
    requires ValidCivil(c1) && ValidCivil(c2)
    requires MonthIndex(c1) < MonthIndex(c2)
    ensures ToJulianDay(c1) < ToJulianDay(c2)
  {
    if c1.year < c2.year {
      DaysBeforeMonthMonotone(c1.year, c1.month, 13);
      MonthLength(c1.year, 12);
      DaysBeforeYearMonotone(c1.year, c2.year);
    } else {
      assert c1.year == c2.year && c1.month < c2.month;
      DaysBeforeMonthMonotone(c1.year, c1.month, c2.month);
    }
  }

  /** Two valid dates with the same Julian day are the same date. */
  lemma {:induction false} ToJulianDayInjective(c1: Civil, c2: Civil)
    requires ValidCivil(c1) && ValidCivil(c2)
    requires ToJulianDay(c1) == ToJulianDay(c2)
    ensures c1 == c2
  {
    if MonthIndex(c1) < MonthIndex(c2) {
      EarlierMonthEarlierDay(c1, c2);
    } else if MonthIndex(c2) < MonthIndex(c1) {
      EarlierMonthEarlierDay(c2, c1);
    }
    MonthIndexParts(c1);
    MonthIndexParts(c2);
  }

  /** Converting a valid calendar date to a Julian day and back gives it unchanged. */
  lemma {:induction false} FromToJulianDay(c: Civil)
    requires ValidCivil(c)
    ensures FromJulianDay(ToJulianDay(c)) == c
  {
    ToJulianDayInjective(FromJulianDay(ToJulianDay(c)), c);
  }

  /** A day is on or after the first of month i exactly when its own month is month i or later. */
  lemma {:induction false} MonthStartOrder(d: Date, i: int)
    ensures MonthStart(i) <= d <==> i <= MonthIndex(FromJulianDay(d))
  {
    var first := Civil(i / 12, i % 12 + 1, 1);
    var c := FromJulianDay(d);
    assert ValidCivil(first);
    assert MonthIndex(first) == i;
    if MonthIndex(c) < i {
      EarlierMonthEarlierDay(c, first);
    } else if i < MonthIndex(c) {
      EarlierMonthEarlierDay(first, c);
    } else {
      MonthIndexParts(c);
    }
  }

  /** A day lies in months [i, j) exactly when it lies in [MonthStart(i), MonthStart(j)). */
  lemma {:induction false} MonthRange(d: Date, i: int, j: int)
    ensures MonthStart(i) <= d < MonthStart(j) <==> i <= MonthIndex(FromJulianDay(d)) < j
  {
    MonthStartOrder(d, i);
    MonthStartOrder(d, j);
  }

  /** The first of a month is that month's day 1. */
  lemma {:induction false} MonthStartIsFirstDay(i: int)
    ensures FromJulianDay(MonthStart(i)) == Civil(i / 12, i % 12 + 1, 1)
  {
    FromToJulianDay(Civil(i / 12, i % 12 + 1, 1));
  }

  /** The day before the first of the next month is the last day of the month. */
  lemma {:induction false} MonthEnd(i: int)
    ensures MonthStart(i + 1) - 1 == ToJulianDay(Civil(i / 12, i % 12 + 1, DaysInMonth(i / 12, i % 12 + 1)))
  {
    var y, m := i / 12, i % 12 + 1;
    MonthLength(y, m);
    if m == 12 {
      assert (i + 1) / 12 == y + 1 && (i + 1) % 12 == 0;
      YearLength(y);
    } else {
      assert (i + 1) / 12 == y && (i + 1) % 12 + 1 == m + 1;
    }
  }

  /** The day before the first of the next month is that month's last day, as a calendar date. */
  lemma {:induction false} MonthLastDay(i: int)
    ensures FromJulianDay(MonthStart(i + 1) - 1) == Civil(i / 12, i % 12 + 1, DaysInMonth(i / 12, i % 12 + 1))
  {
    var c := Civil(i / 12, i % 12 + 1, DaysInMonth(i / 12, i % 12 + 1));
    MonthEnd(i);
    FromToJulianDay(c);
  }

  /** Later dates never fall in earlier months. */
  lemma {:induction false} MonthIndexMonotone(d1: Date, d2: Date)
    requires d1 <= d2
    ensures MonthIndex(FromJulianDay(d1)) <= MonthIndex(FromJulianDay(d2))
  {
    var c1, c2 := FromJulianDay(d1), FromJulianDay(d2);
    if MonthIndex(c2) < MonthIndex(c1) {
      EarlierMonthEarlierDay(c2, c1);
    }
  }
}
