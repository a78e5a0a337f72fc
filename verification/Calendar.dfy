/**
 The Gregorian calendar. A closed formula counts the days since 1970-01-01 and serves as the reference for
 the field-by-field arithmetic of timestamps. Months and days of the month are counted from 0.
 */
module Calendar {

  /** Days of a month, in the order of tests in the source. */
  function NoDays(month: int, year: int): int {
    if month == 0 || month == 2 || month == 4 || month == 6 || month == 7 || month == 9 || month == 11 then 31
    else if month == 3 || month == 5 || month == 8 || month == 10 then 30
    else if year % 4 == 0 && (year % 100 != 0 || year % 400 == 0) then 29
    else 28
  }

  // ----- the reference -----

  /** Number of leap years in 1..year. */
  function LeapYears(year: int): int { year / 4 - year / 100 + year / 400 }

  /** Days from 1970-01-01 to the first of January; there were 477 leap years before 1970. */
  function YearStart(year: int): int { 365 * (year - 1970) + LeapYears(year - 1) - 477 }

  predicate IsLeap(year: int) { year % 4 == 0 && (year % 100 != 0 || year % 400 == 0) }

  /** Days from the first of January to the first of the month; month 12 is the next January. */
  function MonthOffset(month: int, leap: bool): int
    requires 0 <= month <= 12
  {
    [0, 31, 59, 90, 120, 151, 181, 212, 243, 273, 304, 334, 365][month] + if leap && month >= 2 then 1 else 0
  }

  /** Days from 1970-01-01 to the first of the month. */
  function MonthStart(year: int, month: int): int
    requires 0 <= month <= 12
  {
    YearStart(year) + MonthOffset(month, IsLeap(year))
  }

  // ----- the reference agrees with the lengths of months -----

  lemma DivStep(y: int, k: int)
    requires k == 4 || k == 100 || k == 400
    ensures y / k - (y - 1) / k == if y % k == 0 then 1 else 0
  {
  }

  lemma MultipleOf100(q: int)
    ensures 100 * q % 100 == 0 && 100 * q % 4 == 0
  {
    assert 100 * q == 4 * (25 * q);
  }

  lemma Divisors(y: int)
    ensures y % 400 == 0 ==> y % 100 == 0
    ensures y % 100 == 0 ==> y % 4 == 0
  {
    MultipleOf100(4 * (y / 400));
    MultipleOf100(y / 100);
  }

  lemma LeapYearsStep(y: int)
    ensures LeapYears(y) == LeapYears(y - 1) + if IsLeap(y) then 1 else 0
  {
    DivStep(y, 4);
    DivStep(y, 100);
    DivStep(y, 400);
    Divisors(y);
  }

  lemma YearLength(year: int)
    ensures YearStart(year + 1) == YearStart(year) + (if IsLeap(year) then 366 else 365)
  {
    LeapYearsStep(year);
  }

  lemma MonthLength(year: int, month: int)
    requires 0 <= month < 12
    ensures MonthStart(year, month + 1) == MonthStart(year, month) + NoDays(month, year)
    ensures 28 <= NoDays(month, year) <= 31
  {
  }

  /** December is followed by January of the next year. */
  lemma NextJanuary(year: int)
    ensures MonthStart(year, 12) == MonthStart(year + 1, 0)
  {
    YearLength(year);
  }

  lemma {:induction false} YearsAddUp(a: int, b: int)
    requires a <= b
    ensures 365 * (b - a) <= YearStart(b) - YearStart(a) <= 366 * (b - a)
    decreases b - a
  {
    if a < b {
      YearsAddUp(a, b - 1);
      YearLength(b - 1);
    }
  }

  /** The calendar repeats after 400 years of 146097 days. */
  lemma FourCenturies(year: int)
    ensures YearStart(year + 400) == YearStart(year) + 146097
  {
    assert (year + 399) / 4 == (year - 1) / 4 + 100;
    assert (year + 399) / 100 == (year - 1) / 100 + 4;
    assert (year + 399) / 400 == (year - 1) / 400 + 1;
  }

  lemma EpochStart()
    ensures YearStart(1970) == 0
  {
  }

  /** Well-known dates are where they should be. */
  lemma Anchors()
    ensures MonthStart(1970, 0) == 0
    ensures MonthStart(2000, 2) == 11017
    ensures MonthStart(2010, 0) == 14610
    ensures MonthStart(2038, 0) == 24837
  {
  }

  // ----- order -----

  lemma MonthsAscend(a: int, b: int, leap: bool)
    requires 0 <= a <= b <= 12
    ensures MonthOffset(a, leap) <= MonthOffset(b, leap)
  {
  }

  /** A later month of the same or a later year starts after all days of the earlier one. */
  lemma LaterMonth(y1: int, m1: int, y2: int, m2: int)
    requires 0 <= m1 < 12 && 0 <= m2 < 12 && (y1 < y2 || (y1 == y2 && m1 < m2))
    ensures MonthStart(y1, m1) + NoDays(m1, y1) <= MonthStart(y2, m2)
  {
    MonthLength(y1, m1);
    if y1 == y2 {
      MonthsAscend(m1 + 1, m2, IsLeap(y1));
    } else {
      MonthsAscend(m1 + 1, 12, IsLeap(y1));
      NextJanuary(y1);
      YearsAddUp(y1 + 1, y2);
      MonthsAscend(0, m2, IsLeap(y2));
    }
  }
}
