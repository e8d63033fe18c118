/**
 * Calendar dates. A date is its proleptic Gregorian ordinal (0001-01-01 is
 * day 1, as Python's date.toordinal() counts), so "before", "on or before"
 * and "n days later" are integer comparisons and additions.
 */
module Dates {

  import opened Wrappers
  import opened Text

  type Day = int

  predicate IsLeapYear(y: int)
  {
    y % 4 == 0 && (y % 100 != 0 || y % 400 == 0)
  }

  function DaysInYear(y: int): nat
  {
    if IsLeapYear(y) then 366 else 365
  }

  function DaysInMonth(y: int, m: int): nat
    requires 1 <= m <= 12
  {
    if m == 2 then (if IsLeapYear(y) then 29 else 28)
    else if m == 4 || m == 6 || m == 9 || m == 11 then 30
    else 31
  }

  /** Days in the years 1 .. y-1. */
  function DaysBeforeYear(y: int): nat
    requires y >= 1
    decreases y
  {
    if y == 1 then 0 else DaysBeforeYear(y - 1) + DaysInYear(y - 1)
  }

  /** Days in the months 1 .. m-1 of year y. */
  function DaysBeforeMonth(y: int, m: int): nat
    requires 1 <= m <= 12
  {
    [0, 31, 59, 90, 120, 151, 181, 212, 243, 273, 304, 334][m - 1]
      + (if m > 2 && IsLeapYear(y) then 1 else 0)
  }

  predicate IsCalendarDate(y: int, m: int, d: int)
  {
    y >= 1 && 1 <= m <= 12 && 1 <= d <= DaysInMonth(y, m)
  }

  function DayNumber(y: int, m: int, d: int): Day
    requires IsCalendarDate(y, m, d)
  {
    DaysBeforeYear(y) + DaysBeforeMonth(y, m) + d
  }

  /** The layout of ISO 8601's extended calendar date: four digits, '-', two digits, '-', two digits. */
  predicate IsIsoLayout(s: string)
  {
    |s| == 10 && s[4] == '-' && s[7] == '-'
    && AllDigits(s[..4]) && AllDigits(s[5..7]) && AllDigits(s[8..])
  }

  /**
   * The date a text denotes, or None when it is not a calendar date written
   * YYYY-MM-DD. Both strptime("%Y-%m-%d") in the handlers and SQLite's DATE()
   * in the queries and triggers are modelled by this one parser.
   */
  function ParseDate(s: string): (r: Option<Day>)
    ensures r.Some? ==> IsIsoLayout(s) && r.value >= 1
  {
    if IsIsoLayout(s) then
      var y, m, d := DigitsValue(s[..4]), DigitsValue(s[5..7]), DigitsValue(s[8..]);
      if IsCalendarDate(y, m, d) then Some(DayNumber(y, m, d)) else None
    else None
  }

  /**
   * 9999-12-31: the last date a four-digit year can write, and the last one
   * SQLite's DATE() returns (past it the result is NULL) and Python's date.max.
   */
  const LastDay: Day := DayNumber(9999, 12, 31)

  function Pow10(n: nat): nat
  {
    if n == 0 then 1 else 10 * Pow10(n - 1)
  }

  lemma {:induction false} DigitsValueBelow(s: string)
    requires AllDigits(s)
    ensures DigitsValue(s) < Pow10(|s|)
    decreases |s|
  {
    if s != [] {
      DigitsValueBelow(s[..|s| - 1]);
    }
  }

  /** No text parses to a date after 9999-12-31. */
  lemma ParsedDayAtMost(s: string)
    ensures ParseDate(s).Some? ==> ParseDate(s).value <= LastDay
  {
    if ParseDate(s).Some? {
      var y, m, d := DigitsValue(s[..4]), DigitsValue(s[5..7]), DigitsValue(s[8..]);
      DigitsValueBelow(s[..4]);
      assert Pow10(4) == 10000;
      if (y, m, d) != (9999, 12, 31) {
        DayNumberIncreasing(y, m, d, 9999, 12, 31);
      }
    }
  }

  /** STRFTIME('%Y-%m', s): the year-month of a date text, NULL when the text is not a date. */
  function MonthOf(s: string): (r: Option<string>)
    ensures r.Some? <==> ParseDate(s).Some?
    ensures r.Some? ==> |r.value| == 7 && r.value == s[..7]
  {
    if ParseDate(s).Some? then Some(s[..7]) else None
  }

  lemma {:induction false} DaysBeforeYearGrows(y1: int, y2: int)
    requires 1 <= y1 < y2
    ensures DaysBeforeYear(y1) + DaysInYear(y1) <= DaysBeforeYear(y2)
    decreases y2 - y1
  {
    if y1 + 1 < y2 {
      DaysBeforeYearGrows(y1 + 1, y2);
    }
  }

  lemma {:induction false} DaysBeforeMonthGrows(y: int, m1: int, m2: int)
    requires 1 <= m1 < m2 <= 12
    ensures DaysBeforeMonth(y, m1) + DaysInMonth(y, m1) <= DaysBeforeMonth(y, m2)
    decreases m2 - m1
  {
    if m1 + 1 < m2 {
      DaysBeforeMonthGrows(y, m1 + 1, m2);
    }
  }

  lemma DaysBeforeMonthWithinYear(y: int, m: int)
    requires 1 <= m <= 12
    ensures DaysBeforeMonth(y, m) + DaysInMonth(y, m) <= DaysInYear(y)
  {
  }

  /** Later calendar dates, in (year, month, day) order, have larger day numbers. */
  lemma DayNumberIncreasing(y1: int, m1: int, d1: int, y2: int, m2: int, d2: int)
    requires IsCalendarDate(y1, m1, d1) && IsCalendarDate(y2, m2, d2)
    requires y1 < y2 || (y1 == y2 && m1 < m2) || (y1 == y2 && m1 == m2 && d1 < d2)
    ensures DayNumber(y1, m1, d1) < DayNumber(y2, m2, d2)
  {
    if y1 < y2 {
      DaysBeforeMonthWithinYear(y1, m1);
      DaysBeforeYearGrows(y1, y2);
    } else if m1 < m2 {
      DaysBeforeMonthGrows(y1, m1, m2);
    }
  }
}
