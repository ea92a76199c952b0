/**
 * The part of the ISO-8601 proleptic calendar that the service uses: a local
 * date and month arithmetic with month-end clamping, as `LocalDate.plus(Period.ofMonths(n))`,
 * `LocalDate.plusMonths(n)` and `LocalDate.minusMonths(n)` compute it.
 */
module Dates {
  import opened Wrappers

  /** Year, month (1..12) and day of month, with no validity constraint yet. */
  datatype CalendarDate = CalendarDate(year: int, month: int, day: int)

  /** Gregorian leap-year rule, applied to every year (proleptic). */
  predicate IsLeapYear(y: int) {
    y % 4 == 0 && (y % 100 != 0 || y % 400 == 0)
  }

  function LengthOfMonth(y: int, m: int): (n: int)
    ensures 28 <= n <= 31
    ensures n == 29 <==> m == 2 && IsLeapYear(y)
  {
    if m == 2 then (if IsLeapYear(y) then 29 else 28)
    else if m == 4 || m == 6 || m == 9 || m == 11 then 30
    else 31
  }

  predicate IsValidDate(d: CalendarDate) {
    1 <= d.month <= 12 && 1 <= d.day <= LengthOfMonth(d.year, d.month)
  }

  /** A date that exists in the calendar, i.e. one a `LocalDate` can hold. */
  type Date = d: CalendarDate | IsValidDate(d) witness CalendarDate(1970, 1, 1)

  /** Number of months from January of year 0 to the month of `d`. */
  function MonthIndex(d: CalendarDate): int {
    d.year * 12 + (d.month - 1)
  }

  /** Strict chronological order of dates. */
  predicate IsBefore(a: CalendarDate, b: CalendarDate) {
    a.year < b.year
    || (a.year == b.year && a.month < b.month)
    || (a.year == b.year && a.month == b.month && a.day < b.day)
  }

  /**
   * `d` moved by `n` months: the month is moved first and the day of month is
   * then clamped to the last valid day of the resulting month.
   */
  function PlusMonths(d: Date, n: int): (r: Date)
    ensures MonthIndex(r) == MonthIndex(d) + n
    ensures r.day <= d.day
  {
    var total := MonthIndex(d) + n;
    var y := total / 12;
    var m := total % 12 + 1;
    CalendarDate(y, m, Min(d.day, LengthOfMonth(y, m)))
  }

  /** Two valid dates in the same month index are in the same year and month. */
  lemma MonthIndexInjective(a: Date, b: Date)
    requires MonthIndex(a) == MonthIndex(b)
    ensures a.year == b.year && a.month == b.month
  {
  }

  /** An earlier month index means an earlier date, whatever the days. */
  lemma MonthIndexOrder(a: Date, b: Date)
    requires MonthIndex(a) < MonthIndex(b)
    ensures IsBefore(a, b)
  {
  }

  /** Moving forward by a positive number of months gives a later date, backward an earlier one. */
  lemma PlusMonthsMoves(d: Date, n: int)
    ensures n > 0 ==> IsBefore(d, PlusMonths(d, n))
    ensures n < 0 ==> IsBefore(PlusMonths(d, n), d)
  {
    var r := PlusMonths(d, n);
    if n > 0 {
      MonthIndexOrder(d, r);
    } else if n < 0 {
      MonthIndexOrder(r, d);
    }
  }

  /**
   * The day of month is kept when the target month has it, and is otherwise
   * clamped to that month's last day.
   */
  lemma PlusMonthsDay(d: Date, n: int)
    ensures var r := PlusMonths(d, n);
      (d.day <= LengthOfMonth(r.year, r.month) ==> r.day == d.day)
      && (d.day > LengthOfMonth(r.year, r.month) ==> r.day == LengthOfMonth(r.year, r.month))
  {
  }

  /** Without clamping (days up to 28) moving forward and back again returns the same date. */
  lemma PlusMonthsRoundTrip(d: Date, n: int)
    requires d.day <= 28
    ensures PlusMonths(PlusMonths(d, n), -n) == d
  {
    var r := PlusMonths(d, n);
    var back := PlusMonths(r, -n);
    assert r.day == d.day;
    assert back.day == d.day;
    MonthIndexInjective(back, d);
  }

  /** The 31st of January plus one month is the last day of February. */
  lemma ClampExample()
    ensures PlusMonths(CalendarDate(2023, 1, 31), 1) == CalendarDate(2023, 2, 28)
    ensures PlusMonths(CalendarDate(2024, 1, 31), 1) == CalendarDate(2024, 2, 29)
    ensures PlusMonths(CalendarDate(2024, 3, 31), -1) == CalendarDate(2024, 2, 29)
  {
  }
}
