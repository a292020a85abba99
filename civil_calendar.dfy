/**
 * Proleptic Gregorian calendar dates and the day arithmetic the app asks of
 * Foundation's `Calendar`. Times are integer seconds; the calendar is taken in
 * one fixed time zone without daylight-saving changes.
 */
module CivilCalendar {

  import opened Wrappers

  /** A calendar day. Months and days outside their ranges are read leniently,
      as `Calendar.date(from:)` reads date components. */
  datatype CalDate = CalDate(year: int, month: int, day: int)

  const SecondsPerDay: int := 86400

  predicate IsLeapYear(y: int) {
    y % 4 == 0 && (y % 100 != 0 || y % 400 == 0)
  }

  function DaysInMonth(y: int, m: int): (n: int)
    requires 1 <= m <= 12
    ensures 28 <= n <= 31
    ensures n == 29 <==> m == 2 && IsLeapYear(y)
    ensures n == 28 <==> m == 2 && !IsLeapYear(y)
  {
    if m == 2 then (if IsLeapYear(y) then 29 else 28)
    else if m == 4 || m == 6 || m == 9 || m == 11 then 30
    else 31
  }

  predicate IsValid(d: CalDate) {
    1 <= d.month <= 12 && 1 <= d.day <= DaysInMonth(d.year, d.month)
  }

  /** Days from 1 January of year 1 to 1 January of year `y`. */
  function DaysBeforeYear(y: int): int {
    365 * (y - 1) + (y - 1) / 4 - (y - 1) / 100 + (y - 1) / 400
  }

  lemma YearLength(y: int)
    ensures DaysBeforeYear(y + 1) - DaysBeforeYear(y) == if IsLeapYear(y) then 366 else 365
  {
    assert y / 4 - (y - 1) / 4 == if y % 4 == 0 then 1 else 0;
    assert y / 100 - (y - 1) / 100 == if y % 100 == 0 then 1 else 0;
    assert y / 400 - (y - 1) / 400 == if y % 400 == 0 then 1 else 0;
  }

  /** Days from 1 January of year 1 to the first of month `m` of year `y`;
      month 13 stands for the first of January of the next year. */
  function FirstOfMonth(y: int, m: int): int
    requires 1 <= m <= 13
  {
    if m == 1 then DaysBeforeYear(y) else FirstOfMonth(y, m - 1) + DaysInMonth(y, m - 1)
  }

  /** The twelve months of a year add up to the year. */
  lemma {:induction false} YearEnd(y: int)
    ensures FirstOfMonth(y, 13) == DaysBeforeYear(y + 1)
  {
    YearLength(y);
    var leap := if IsLeapYear(y) then 1 else 0;
    assert FirstOfMonth(y, 2) == DaysBeforeYear(y) + 31;
    assert FirstOfMonth(y, 3) == DaysBeforeYear(y) + 59 + leap;
    assert FirstOfMonth(y, 4) == DaysBeforeYear(y) + 90 + leap;
    assert FirstOfMonth(y, 5) == DaysBeforeYear(y) + 120 + leap;
    assert FirstOfMonth(y, 6) == DaysBeforeYear(y) + 151 + leap;
    assert FirstOfMonth(y, 7) == DaysBeforeYear(y) + 181 + leap;
    assert FirstOfMonth(y, 8) == DaysBeforeYear(y) + 212 + leap;
    assert FirstOfMonth(y, 9) == DaysBeforeYear(y) + 243 + leap;
    assert FirstOfMonth(y, 10) == DaysBeforeYear(y) + 273 + leap;
    assert FirstOfMonth(y, 11) == DaysBeforeYear(y) + 304 + leap;
    assert FirstOfMonth(y, 12) == DaysBeforeYear(y) + 334 + leap;
    assert FirstOfMonth(y, 13) == DaysBeforeYear(y) + 365 + leap;
  }

  /** The date with its month brought into 1..12 by carrying whole years. */
  function NormalizeMonth(d: CalDate): (r: CalDate)
    ensures 1 <= r.month <= 12 && r.day == d.day
    ensures 12 * r.year + r.month == 12 * d.year + d.month
  {
    CalDate(d.year + (d.month - 1) / 12, (d.month - 1) % 12 + 1, d.day)
  }

  /** Number of the day counted from 1 January of year 1 (day 0). Month and
      day overflow carry as in `Calendar.date(from:)`. */
  function DayNumber(d: CalDate): int {
    if 1 <= d.month <= 12 then FirstOfMonth(d.year, d.month) + d.day - 1
    else
      var n := NormalizeMonth(d);
      FirstOfMonth(n.year, n.month) + n.day - 1
  }

  /** The instant, in seconds, of midnight at the start of `d`. */
  function Midnight(d: CalDate): int {
    DayNumber(d) * SecondsPerDay
  }

  /** `calendar.date(bySettingHour:minute:second: 0, of: d)`: the instant at
      the given wall-clock time of day `d`, or None when the clock fields are out of range. */
  function AtTimeOfDay(d: CalDate, hour: int, minute: int): (r: Option<int>)
    ensures r.Some? <==> 0 <= hour < 24 && 0 <= minute < 60
    ensures r.Some? ==> Midnight(d) <= r.value < Midnight(d) + SecondsPerDay
    ensures r.Some? ==> r.value - Midnight(d) == 3600 * hour + 60 * minute
  {
    if 0 <= hour < 24 && 0 <= minute < 60 then Some(Midnight(d) + 3600 * hour + 60 * minute) else None
  }

  lemma DayNumberNextDay(d: CalDate)
    ensures DayNumber(d.(day := d.day + 1)) == DayNumber(d) + 1
  {
    var n := NormalizeMonth(d);
    assert NormalizeMonth(d.(day := d.day + 1)) == n.(day := n.day + 1);
  }

  /** Going from the first of a month to the first of the next one advances the
      day count by the length of that month, across a year end too. */
  lemma MonthStep(y: int, m: int)
    requires 1 <= m <= 12
    ensures DayNumber(CalDate(y, m + 1, 1)) == DayNumber(CalDate(y, m, 1)) + DaysInMonth(y, m)
  {
    if m == 12 {
      assert NormalizeMonth(CalDate(y, 13, 1)) == CalDate(y + 1, 1, 1);
      YearEnd(y);
    }
  }

  /** Day numbers of valid dates in one month are consecutive from the first. */
  lemma DayNumberInMonth(d: CalDate)
    requires 1 <= d.month <= 12
    ensures DayNumber(d) == DayNumber(CalDate(d.year, d.month, 1)) + d.day - 1
  {
  }
}
