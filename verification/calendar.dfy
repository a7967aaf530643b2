/** Calendar dates as the ledger's date fields hold them ("YYYY-MM-DD"), the
    millisecond instants JavaScript compares them as, and calendar months. */
module Calendar {

  /** A calendar date; `month` is 1-based as in the ISO text. */
  datatype Date = Date(year: int, month: int, day: int)

  /** A calendar month; `month` is 1-based. */
  datatype YearMonth = YearMonth(year: int, month: int)

  predicate IsLeapYear(y: int) {
    (y % 4 == 0 && y % 100 != 0) || y % 400 == 0
  }

  function DaysInMonth(y: int, m: int): int
    requires 1 <= m <= 12
  {
    if m == 2 then (if IsLeapYear(y) then 29 else 28)
    else if m == 4 || m == 6 || m == 9 || m == 11 then 30
    else 31
  }

  predicate ValidDate(d: Date) {
    1 <= d.month <= 12 && 1 <= d.day <= DaysInMonth(d.year, d.month)
  }

  /** Calendar order: `a` is the same day as `b` or an earlier one. */
  predicate OnOrBefore(a: Date, b: Date) {
    || a.year < b.year
    || (a.year == b.year && a.month < b.month)
    || (a.year == b.year && a.month == b.month && a.day <= b.day)
  }

  /** A number per day that grows with the calendar. It leaves gaps after
      short months, so it is not a count of days: only its order is used. */
  function DayNumber(d: Date): int {
    d.year * 372 + (d.month - 1) * 31 + (d.day - 1)
  }

  lemma DayNumberOrder(a: Date, b: Date)
    requires ValidDate(a) && ValidDate(b)
    ensures DayNumber(a) <= DayNumber(b) <==> OnOrBefore(a, b)
    ensures DayNumber(a) == DayNumber(b) <==> a == b
  {
  }

  const MillisPerDay: int := 86_400_000

  /** `new Date("YYYY-MM-DD")`: the instant at which the day begins. */
  function StartOfDay(d: Date): int {
    DayNumber(d) * MillisPerDay
  }

  /** `t.setHours(h, m, s, ms)`: the instant of that time of day on the day of `t`. */
  function SetHours(t: int, h: int, m: int, s: int, ms: int): int {
    (t / MillisPerDay) * MillisPerDay + ((h * 60 + m) * 60 + s) * 1000 + ms
  }

  /** The last millisecond of day `d`, as the filter builds it for its upper bound. */
  function EndOfDay(d: Date): int {
    SetHours(StartOfDay(d), 23, 59, 59, 999)
  }

  /** The end-of-day instant lies inside the day, on its last millisecond. */
  lemma EndOfDayIsLastInstant(d: Date)
    ensures StartOfDay(d) <= EndOfDay(d) < StartOfDay(d) + MillisPerDay
    ensures EndOfDay(d) + 1 == StartOfDay(d) + MillisPerDay
  {
    assert (DayNumber(d) * MillisPerDay) / MillisPerDay == DayNumber(d);
  }

  /** Comparing day-start instants, and a day-start instant against an
      end-of-day instant, is comparing the calendar dates. */
  lemma InstantOrder(a: Date, b: Date)
    requires ValidDate(a) && ValidDate(b)
    ensures StartOfDay(a) < StartOfDay(b) <==> !OnOrBefore(b, a)
    ensures StartOfDay(a) <= EndOfDay(b) <==> OnOrBefore(a, b)
  {
    DayNumberOrder(a, b);
    DayNumberOrder(b, a);
    EndOfDayIsLastInstant(b);
  }

  predicate ValidMonth(ym: YearMonth) {
    1 <= ym.month <= 12
  }

  function MonthOf(d: Date): YearMonth {
    YearMonth(d.year, d.month)
  }

  /** Months counted from year 0, so that consecutive months differ by one. */
  function MonthNumber(ym: YearMonth): int {
    ym.year * 12 + (ym.month - 1)
  }

  /** The month `k` months after `ym` (before it when `k < 0`), carrying the
      year the way `new Date(year, monthIndex + k, 1)` normalises a month
      index outside 0..11. */
  function AddMonths(ym: YearMonth, k: int): (r: YearMonth)
    ensures ValidMonth(r)
    ensures MonthNumber(r) == MonthNumber(ym) + k
  {
    var n := MonthNumber(ym) + k;
    YearMonth(n / 12, n % 12 + 1)
  }

  /** The calendar month after `ym`, rolling December over into January. */
  function NextMonth(ym: YearMonth): YearMonth {
    if ym.month == 12 then YearMonth(ym.year + 1, 1) else YearMonth(ym.year, ym.month + 1)
  }

  lemma MonthNumberInjective(a: YearMonth, b: YearMonth)
    requires ValidMonth(a) && ValidMonth(b)
    ensures MonthNumber(a) == MonthNumber(b) <==> a == b
  {
  }

  /** Adding no months to a valid month gives it back. */
  lemma AddZeroMonths(ym: YearMonth)
    requires ValidMonth(ym)
    ensures AddMonths(ym, 0) == ym
  {
    MonthNumberInjective(AddMonths(ym, 0), ym);
  }

  /** Each further month is the calendar successor of the previous one,
      across the year boundary included. */
  lemma AddMonthsStep(ym: YearMonth, k: int)
    ensures AddMonths(ym, k + 1) == NextMonth(AddMonths(ym, k))
  {
    var p := AddMonths(ym, k);
    MonthNumberInjective(AddMonths(ym, k + 1), NextMonth(p));
  }
}
