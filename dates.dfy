/**
 * Calendar dates in the proleptic Gregorian calendar, as Python's `datetime.date`
 * and `calendar` modules compute them: leap years, month lengths, the day ordinal
 * (`toordinal`), which defines adding days (`timedelta`) and the day count between
 * two dates, and the month arithmetic of `add_months` and `first_day` in main.py.
 */
module Dates {

  datatype Date = Date(year: int, month: int, day: int)

  /** `calendar.isleap` */
  predicate IsLeapYear(year: int) {
    year % 4 == 0 && (year % 100 != 0 || year % 400 == 0)
  }

  function DaysInYear(year: int): int {
    if IsLeapYear(year) then 366 else 365
  }

  /** `calendar.monthrange(year, month)[1]` */
  function DaysInMonth(year: int, month: int): (n: int)
    requires 1 <= month <= 12
    ensures 28 <= n <= 31
    ensures n == 29 <==> month == 2 && IsLeapYear(year)
    ensures n == 28 <==> month == 2 && !IsLeapYear(year)
  {
    if month == 2 then (if IsLeapYear(year) then 29 else 28)
    else if month == 4 || month == 6 || month == 9 || month == 11 then 30
    else 31
  }

  /** Every `datetime.date` value satisfies this. */
  predicate ValidDate(d: Date) {
    1 <= d.month <= 12 && 1 <= d.day <= DaysInMonth(d.year, d.month)
  }

  /** `a < b` on dates: chronological, that is lexicographic on (year, month, day). */
  predicate Before(a: Date, b: Date) {
    a.year < b.year
    || (a.year == b.year && (a.month < b.month || (a.month == b.month && a.day < b.day)))
  }

  /** The absolute month number `year * 12 + month - 1`. */
  function MonthIndex(d: Date): int {
    d.year * 12 + d.month - 1
  }

  function Min(a: int, b: int): int {
    if a <= b then a else b
  }

  /**
   * `add_months(sourcedate, months)`: moves the month forward by `months` (backward
   * when negative; Python's `//` and `%` by 12 floor, as Dafny's do) and keeps the
   * day of the month unless the target month is shorter, in which case it is that
   * month's last day.
   */
  function AddMonths(source: Date, months: int): (r: Date)
    requires ValidDate(source)
    ensures ValidDate(r)
    ensures MonthIndex(r) == MonthIndex(source) + months
    ensures r.day == source.day || (r.day < source.day && r.day == DaysInMonth(r.year, r.month))
  {
    var month0 := source.month - 1 + months;
    var year := source.year + month0 / 12;
    var month := month0 % 12 + 1;
    Date(year, month, Min(source.day, DaysInMonth(year, month)))
  }

  /** The month index determines year and month of a date with a month in range. */
  lemma MonthIndexDetermines(a: Date, b: Date)
    requires 1 <= a.month <= 12 && 1 <= b.month <= 12
    ensures MonthIndex(a) == MonthIndex(b) <==> a.year == b.year && a.month == b.month
  {
    assert a.year < b.year ==> MonthIndex(a) < MonthIndex(b);
    assert b.year < a.year ==> MonthIndex(b) < MonthIndex(a);
  }

  /** A date before another never lies in a later month. */
  lemma BeforeMonthIndex(a: Date, b: Date)
    requires 1 <= a.month <= 12 && 1 <= b.month <= 12
    requires Before(a, b)
    ensures MonthIndex(a) <= MonthIndex(b)
  {
    if a.year < b.year {
      assert MonthIndex(a) <= a.year * 12 + 11 < b.year * 12 <= MonthIndex(b);
    }
  }

  /** A date in an earlier month is before. */
  lemma MonthIndexBefore(a: Date, b: Date)
    requires 1 <= a.month <= 12 && 1 <= b.month <= 12
    requires MonthIndex(a) < MonthIndex(b)
    ensures Before(a, b)
  {
    assert b.year < a.year ==> MonthIndex(b) < MonthIndex(a);
  }

  /** `first_day(date)`: `date.replace(day=1)`. */
  function FirstDay(d: Date): (r: Date)
    requires ValidDate(d)
    ensures ValidDate(r) && MonthIndex(r) == MonthIndex(d)
  {
    Date(d.year, d.month, 1)
  }

  /** The first day is the earliest date of its month. */
  lemma FirstDayIsEarliest(d: Date, e: Date)
    requires ValidDate(d) && ValidDate(e)
    requires MonthIndex(e) == MonthIndex(d)
    ensures !Before(e, FirstDay(d))
    ensures e == FirstDay(d) || Before(FirstDay(d), e)
  {
    MonthIndexDetermines(e, d);
  }

  /** `date + timedelta(days=1)` */
  function NextDay(d: Date): (r: Date)
    requires ValidDate(d)
    ensures ValidDate(r) && Before(d, r)
  {
    if d.day < DaysInMonth(d.year, d.month) then Date(d.year, d.month, d.day + 1)
    else if d.month < 12 then Date(d.year, d.month + 1, 1)
    else Date(d.year + 1, 1, 1)
  }

  /** Days in the years before `year`, with 0001-01-01 as day 1 (Python's `_days_before_year`). */
  function DaysBeforeYear(year: int): int {
    var y := year - 1;
    y * 365 + y / 4 - y / 100 + y / 400
  }

  /** Days in the months of `year` before `month` (Python's `_days_before_month`). */
  function DaysBeforeMonth(year: int, month: int): int
    requires 1 <= month <= 12
  {
    [0, 31, 59, 90, 120, 151, 181, 212, 243, 273, 304, 334][month - 1]
    + (if month > 2 && IsLeapYear(year) then 1 else 0)
  }

  /** `date.toordinal()`: 0001-01-01 is day 1. */
  function Ordinal(d: Date): int
    requires 1 <= d.month <= 12
  {
    DaysBeforeYear(d.year) + DaysBeforeMonth(d.year, d.month) + d.day
  }

  lemma YearStep(year: int)
    ensures DaysBeforeYear(year + 1) == DaysBeforeYear(year) + DaysInYear(year)
  {
    QuotientStep4(year);
    QuotientStep100(year);
    QuotientStep400(year);
  }

  /** The quotient by 4 goes up by one exactly at the multiples of 4. */
  lemma QuotientStep4(n: int)
    ensures n / 4 - (n - 1) / 4 == (if n % 4 == 0 then 1 else 0)
  {
  }

  lemma QuotientStep100(n: int)
    ensures n / 100 - (n - 1) / 100 == (if n % 100 == 0 then 1 else 0)
  {
  }

  lemma QuotientStep400(n: int)
    ensures n / 400 - (n - 1) / 400 == (if n % 400 == 0 then 1 else 0)
  {
  }

  lemma MonthStep(year: int, month: int)
    requires 1 <= month < 12
    ensures DaysBeforeMonth(year, month + 1) == DaysBeforeMonth(year, month) + DaysInMonth(year, month)
  {
  }

  lemma DayOfYearBounds(d: Date)
    requires ValidDate(d)
    ensures 1 <= DaysBeforeMonth(d.year, d.month) + d.day <= DaysInYear(d.year)
  {
  }

  lemma {:induction false} DaysBeforeYearMonotone(a: int, b: int)
    requires a <= b
    ensures DaysBeforeYear(a) + 365 * (b - a) <= DaysBeforeYear(b)
    decreases b - a
  {
    if a < b {
      DaysBeforeYearMonotone(a, b - 1);
      YearStep(b - 1);
    }
  }

  /** The ordinal of the next day is one more: `NextDay` is `+ timedelta(days=1)`. */
  lemma NextDayOrdinal(d: Date)
    requires ValidDate(d)
    ensures Ordinal(NextDay(d)) == Ordinal(d) + 1
  {
    if d.day == DaysInMonth(d.year, d.month) {
      if d.month < 12 {
        MonthStep(d.year, d.month);
      } else {
        YearStep(d.year);
      }
    }
  }

  lemma OrdinalOfBefore(a: Date, b: Date)
    requires ValidDate(a) && ValidDate(b)
    requires Before(a, b)
    ensures Ordinal(a) < Ordinal(b)
  {
    if a.year < b.year {
      DayOfYearBounds(a);
      YearStep(a.year);
      DaysBeforeYearMonotone(a.year + 1, b.year);
    } else if a.month < b.month {
      MonthStep(a.year, a.month);
      assert DaysBeforeMonth(a.year, a.month + 1) <= DaysBeforeMonth(b.year, b.month);
    }
  }

  /** On valid dates the chronological order is the order of the ordinals. */
  lemma BeforeIffOrdinal(a: Date, b: Date)
    requires ValidDate(a) && ValidDate(b)
    ensures Before(a, b) <==> Ordinal(a) < Ordinal(b)
    ensures a == b <==> Ordinal(a) == Ordinal(b)
  {
    if Before(a, b) {
      OrdinalOfBefore(a, b);
    } else if Before(b, a) {
      OrdinalOfBefore(b, a);
    }
  }

  /** `start + timedelta(days=k)` for `k >= 0`. */
  function DayAt(start: Date, k: nat): (r: Date)
    requires ValidDate(start)
    ensures ValidDate(r)
    decreases k
  {
    if k == 0 then start else NextDay(DayAt(start, k - 1))
  }

  lemma {:induction false} DayAtOrdinal(start: Date, k: nat)
    requires ValidDate(start)
    ensures Ordinal(DayAt(start, k)) == Ordinal(start) + k
    decreases k
  {
    if k > 0 {
      DayAtOrdinal(start, k - 1);
      NextDayOrdinal(DayAt(start, k - 1));
    }
  }

  /** Walking forward from `start` visits strictly ascending dates. */
  lemma DayAtAscending(start: Date, i: nat, j: nat)
    requires ValidDate(start)
    requires i < j
    ensures Before(DayAt(start, i), DayAt(start, j))
  {
    DayAtOrdinal(start, i);
    DayAtOrdinal(start, j);
    BeforeIffOrdinal(DayAt(start, i), DayAt(start, j));
  }

  /** `(end - start).days` */
  function DaysBetween(start: Date, end: Date): int
    requires 1 <= start.month <= 12 && 1 <= end.month <= 12
  {
    Ordinal(end) - Ordinal(start)
  }

  /** Every valid date from `start` onwards is reached by walking `DaysBetween` days. */
  lemma DayAtReaches(start: Date, d: Date)
    requires ValidDate(start) && ValidDate(d)
    requires !Before(d, start)
    ensures DaysBetween(start, d) >= 0
    ensures DayAt(start, DaysBetween(start, d)) == d
  {
    BeforeIffOrdinal(d, start);
    var k := DaysBetween(start, d);
    DayAtOrdinal(start, k);
    BeforeIffOrdinal(DayAt(start, k), d);
  }
}
