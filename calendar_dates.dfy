/**
 * Calendar dates and `date.setMonth(date.getMonth() + n)`: the month index is advanced and the day
 * of the month is kept; a day that does not exist in the target month spills over into the next
 * month, as JavaScript's Date does (31 January + 1 month is 3 March in a common year).
 */
module CalendarDates {

  /** month is 1..12 */
  datatype Date = Date(year: int, month: int, day: int)

  predicate IsLeapYear(y: int) {
    (y % 4 == 0 && y % 100 != 0) || y % 400 == 0
  }

  function DaysInMonth(y: int, m: int): (n: int)
    ensures 28 <= n <= 31
  {
    if m == 2 then (if IsLeapYear(y) then 29 else 28)
    else if m == 4 || m == 6 || m == 9 || m == 11 then 30
    else 31
  }

  predicate ValidDate(d: Date) {
    1 <= d.month <= 12 && 1 <= d.day <= DaysInMonth(d.year, d.month)
  }

  /** months since year 0, the quantity `setMonth` advances */
  function MonthIndex(d: Date): int {
    d.year * 12 + (d.month - 1)
  }

  /** the first day of the month with the given month index */
  function MonthStart(index: int): (d: Date)
    ensures ValidDate(d) && d.day == 1 && MonthIndex(d) == index
  {
    Date(index / 12, index % 12 + 1, 1)
  }

  /** `new Date(start).setMonth(start.getMonth() + n)` */
  function AddMonths(start: Date, n: nat): (r: Date)
    requires ValidDate(start)
    ensures ValidDate(r)
    ensures start.day <= DaysInMonth(MonthStart(MonthIndex(start) + n).year, MonthStart(MonthIndex(start) + n).month)
            ==> MonthIndex(r) == MonthIndex(start) + n && r.day == start.day
    ensures start.day > DaysInMonth(MonthStart(MonthIndex(start) + n).year, MonthStart(MonthIndex(start) + n).month)
            ==> MonthIndex(r) == MonthIndex(start) + n + 1 && r.day < start.day
  {
    var target := MonthStart(MonthIndex(start) + n);
    var dim := DaysInMonth(target.year, target.month);
    if start.day <= dim then Date(target.year, target.month, start.day)
    else
      var next := MonthStart(MonthIndex(start) + n + 1);
      Date(next.year, next.month, start.day - dim)
  }

  /** A day that exists in every month (1..28) is always preserved. */
  lemma EarlyDayPreserved(start: Date, n: nat)
    requires ValidDate(start) && start.day <= 28
    ensures AddMonths(start, n).day == start.day
    ensures MonthIndex(AddMonths(start, n)) == MonthIndex(start) + n
  {
  }

  /** 2025-01-15 + 12 months = 2026-01-15 */
  lemma TwelveMonthsFromMidJanuary()
    ensures AddMonths(Date(2025, 1, 15), 12) == Date(2026, 1, 15)
  {
    assert MonthIndex(Date(2025, 1, 15)) == 24300;
    assert MonthStart(24312) == Date(2026, 1, 1);
  }

  /** 2025-01-31 + 1 month rolls over into March: 2025-03-03 */
  lemma EndOfJanuaryRollsIntoMarch()
    ensures AddMonths(Date(2025, 1, 31), 1) == Date(2025, 3, 3)
  {
    assert MonthIndex(Date(2025, 1, 31)) == 24300;
    assert MonthStart(24301) == Date(2025, 2, 1);
    assert MonthStart(24302) == Date(2025, 3, 1);
    assert !IsLeapYear(2025);
  }

  /** 2024-02-29 + 12 months = 2025-03-01 */
  lemma LeapDayRollsOver()
    ensures AddMonths(Date(2024, 2, 29), 12) == Date(2025, 3, 1)
  {
    assert MonthIndex(Date(2024, 2, 29)) == 24289;
    assert MonthStart(24301) == Date(2025, 2, 1);
    assert MonthStart(24302) == Date(2025, 3, 1);
    assert IsLeapYear(2024) && !IsLeapYear(2025);
  }
}
