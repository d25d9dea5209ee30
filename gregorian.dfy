/** The proleptic Gregorian calendar the JavaScript `Date` object follows:
    month lengths, leap years, a day ordinal and the weekday. Months are
    0-based as in `Date`. Day ordinal 0 is 0001-01-01, a Monday. */
module Gregorian {

  predicate IsLeap(y: int)
  {
    y % 4 == 0 && (y % 100 != 0 || y % 400 == 0)
  }

  function YearLength(y: int): int
  {
    if IsLeap(y) then 366 else 365
  }

  /** The number of days of the 0-based month `m` of year `y`: what
      `new Date(y, m + 1, 0).getDate()` yields, the last day of month `m`. */
  function MonthLength(y: int, m: int): (n: int)
    requires 0 <= m < 12
    ensures 28 <= n <= 31
  {
    if m == 1 then (if IsLeap(y) then 29 else 28)
    else if m == 3 || m == 5 || m == 8 || m == 10 then 30
    else 31
  }

  predicate ValidDate(y: int, m: int, d: int)
  {
    0 <= m < 12 && 1 <= d <= MonthLength(y, m)
  }

  /** Days of year `y` before the first of month `m` (`m == 12`: the whole year). */
  function DaysBeforeMonth(y: int, m: int): (n: int)
    requires 0 <= m <= 12
    ensures 0 <= n
  {
    var table := [0, 31, 59, 90, 120, 151, 181, 212, 243, 273, 304, 334, 365];
    table[m] + (if m >= 2 && IsLeap(y) then 1 else 0)
  }

  /** Days from 0001-01-01 to the first of January of year `y`. */
  function DaysBeforeYear(y: int): int
  {
    365 * (y - 1) + (y - 1) / 4 - (y - 1) / 100 + (y - 1) / 400
  }

  /** The ordinal of a date: consecutive dates get consecutive numbers. */
  function DayNumber(y: int, m: int, d: int): int
    requires 0 <= m < 12
  {
    DaysBeforeYear(y) + DaysBeforeMonth(y, m) + d - 1
  }

  /** `new Date(y, m, ...)` reads a year from 0 to 99 as 1900 + y. */
  function ConstructorYear(y: int): (r: int)
    ensures !(0 <= y <= 99) ==> r == y
    ensures 0 <= y <= 99 ==> r == 1900 + y
  {
    if 0 <= y <= 99 then 1900 + y else y
  }

  /** `new Date(y, m, d).getDay()`: 0 is Sunday, 6 is Saturday. */
  function Weekday(y: int, m: int, d: int): (w: int)
    requires 0 <= m < 12
    ensures 0 <= w < 7
  {
    (DayNumber(ConstructorYear(y), m, d) + 1) % 7
  }

  /** The month table: each month follows the previous one without gap, and
      the twelve months make up the year. */
  lemma MonthsTileTheYear(y: int, m: int)
    requires 0 <= m < 12
    ensures DaysBeforeMonth(y, m + 1) == DaysBeforeMonth(y, m) + MonthLength(y, m)
    ensures DaysBeforeMonth(y, 12) == YearLength(y)
  {
  }

  /** `k` divides `y` exactly when the count of multiples of `k` goes up at `y`. */
  lemma MultiplesStep(y: int)
    ensures y / 4 - (y - 1) / 4 == if y % 4 == 0 then 1 else 0
    ensures y / 100 - (y - 1) / 100 == if y % 100 == 0 then 1 else 0
    ensures y / 400 - (y - 1) / 400 == if y % 400 == 0 then 1 else 0
    ensures y % 400 == 0 ==> y % 100 == 0
    ensures y % 100 == 0 ==> y % 4 == 0
  {
  }

  /** The closed-form count of days before a year agrees with the leap rule. */
  lemma YearStep(y: int)
    ensures DaysBeforeYear(y + 1) == DaysBeforeYear(y) + YearLength(y)
  {
    MultiplesStep(y);
  }

  /** Later years start later. */
  lemma {:induction false} YearsIncrease(a: int, b: int)
    requires a < b
    ensures DaysBeforeYear(a) + YearLength(a) <= DaysBeforeYear(b)
    decreases b - a
  {
    YearStep(a);
    if a + 1 < b {
      YearsIncrease(a + 1, b);
      YearStep(a + 1);
    }
  }

  /** Later months of a year start later. */
  lemma {:induction false} MonthsIncrease(y: int, a: int, b: int)
    requires 0 <= a < b <= 12
    ensures DaysBeforeMonth(y, a) + MonthLength(y, a) <= DaysBeforeMonth(y, b)
    decreases b - a
  {
    MonthsTileTheYear(y, a);
    if a + 1 < b {
      MonthsIncrease(y, a + 1, b);
    }
  }

  /** A valid date's ordinal lies inside its year. */
  lemma DayNumberInYear(y: int, m: int, d: int)
    requires ValidDate(y, m, d)
    ensures DaysBeforeYear(y) <= DayNumber(y, m, d) < DaysBeforeYear(y) + YearLength(y)
  {
    MonthsTileTheYear(y, m);
    if m + 1 < 12 {
      MonthsIncrease(y, m + 1, 12);
    }
  }

  /** On valid dates the ordinal order is the chronological order of
      (year, month, day), and the ordinal tells dates apart. */
  lemma ChronologicalOrder(y1: int, m1: int, d1: int, y2: int, m2: int, d2: int)
    requires ValidDate(y1, m1, d1) && ValidDate(y2, m2, d2)
    ensures DayNumber(y1, m1, d1) < DayNumber(y2, m2, d2) <==>
              y1 < y2 || (y1 == y2 && (m1 < m2 || (m1 == m2 && d1 < d2)))
    ensures DayNumber(y1, m1, d1) == DayNumber(y2, m2, d2) <==> y1 == y2 && m1 == m2 && d1 == d2
  {
    DayNumberInYear(y1, m1, d1);
    DayNumberInYear(y2, m2, d2);
    if y1 < y2 {
      YearsIncrease(y1, y2);
    } else if y2 < y1 {
      YearsIncrease(y2, y1);
    } else if m1 < m2 {
      MonthsIncrease(y1, m1, m2);
    } else if m2 < m1 {
      MonthsIncrease(y1, m2, m1);
    }
  }

  /** The first of the next month, December included, is the day after the
      last day of this one. */
  lemma NextMonthFollows(y: int, m: int)
    requires 0 <= m < 12
    ensures m < 11 ==> DayNumber(y, m + 1, 1) == DayNumber(y, m, MonthLength(y, m)) + 1
    ensures m == 11 ==> DayNumber(y + 1, 0, 1) == DayNumber(y, m, MonthLength(y, m)) + 1
  {
    MonthsTileTheYear(y, m);
    YearStep(y);
  }

  /** Reducing modulo 7 before adding does not change the remainder. */
  lemma ModSeven(a: int, b: int)
    ensures (a + b) % 7 == (a % 7 + b) % 7
  {
    var q := a / 7;
    assert a == 7 * q + a % 7;
    assert a + b == 7 * q + (a % 7 + b);
  }

  /** Within a month the weekday advances by one each day. */
  lemma WeekdayOfDay(y: int, m: int, d: int)
    requires 0 <= m < 12
    ensures Weekday(y, m, d) == (Weekday(y, m, 1) + d - 1) % 7
  {
    var n := DayNumber(ConstructorYear(y), m, 1) + 1;
    assert DayNumber(ConstructorYear(y), m, d) + 1 == n + (d - 1);
    ModSeven(n, d - 1);
  }

  /** The first of the next month, within a year, falls `MonthLength` weekdays later. */
  lemma NextFirstWeekday(y: int, m: int)
    requires 0 <= m < 11
    ensures Weekday(y, m + 1, 1) == (Weekday(y, m, 1) + MonthLength(ConstructorYear(y), m)) % 7
  {
    var cy := ConstructorYear(y);
    var n := DayNumber(cy, m, 1) + 1;
    MonthsTileTheYear(cy, m);
    assert DayNumber(cy, m + 1, 1) + 1 == n + MonthLength(cy, m);
    ModSeven(n, MonthLength(cy, m));
  }

  /** 2024-01-01 was a Monday, and February 2024 had 29 days. */
  lemma KnownDates()
    ensures Weekday(2024, 0, 1) == 1
    ensures MonthLength(2024, 1) == 29 && MonthLength(1900, 1) == 28 && MonthLength(2000, 1) == 29
  {
    assert DaysBeforeYear(2024) == 738885;
  }
}
