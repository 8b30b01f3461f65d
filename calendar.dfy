/**
  Calendar arithmetic for epoch timestamps (seconds since 1970-01-01T00:00),
  proleptic Gregorian: the month and year that grouping by calendar month
  and the month file name are taken from.
 */
module Calendar {

  datatype Date = Date(year: int, month: int, day: int)

  datatype YearMonth = YearMonth(year: int, month: int)

  const SecondsPerDay := 86400

  predicate IsLeapYear(y: int)
  {
    y % 4 == 0 && (y % 100 != 0 || y % 400 == 0)
  }

  function DaysInYear(y: int): int
  {
    if IsLeapYear(y) then 366 else 365
  }

  function DaysInMonth(y: int, m: int): (n: int)
    requires 1 <= m <= 12
    ensures 28 <= n <= 31
  {
    if m == 2 then (if IsLeapYear(y) then 29 else 28)
    else if m == 4 || m == 6 || m == 9 || m == 11 then 30
    else 31
  }

  /** Days in months `m` through December of year `y`. */
  function DaysFromMonth(y: int, m: int): int
    requires 1 <= m <= 12
    decreases 12 - m
  {
    if m == 12 then DaysInMonth(y, 12) else DaysInMonth(y, m) + DaysFromMonth(y, m + 1)
  }

  /** Days in months January through `m - 1` of year `y`. */
  function DaysBeforeMonth(y: int, m: int): int
    requires 1 <= m <= 12
  {
    if m == 1 then 0 else DaysBeforeMonth(y, m - 1) + DaysInMonth(y, m - 1)
  }

  /** Days from 1970-01-01 to January 1 of year `y` (negative before 1970). */
  function DaysBeforeYear(y: int): int
    decreases if y < 1970 then 1970 - y else y - 1970
  {
    if y == 1970 then 0
    else if y > 1970 then DaysBeforeYear(y - 1) + DaysInYear(y - 1)
    else DaysBeforeYear(y + 1) - DaysInYear(y)
  }

  /** The year holding day `d` counted from January 1 of year `y`, and the day's offset in that year. */
  function YearAndDay(d: int, y: int): (r: (int, int))
    ensures 0 <= r.1 < DaysInYear(r.0)
    decreases d < 0, if d < 0 then -d else d
  {
    if d < 0 then YearAndDay(d + DaysInYear(y - 1), y - 1)
    else if d < DaysInYear(y) then (y, d)
    else YearAndDay(d - DaysInYear(y), y + 1)
  }

  /** The month holding day offset `doy` counted from the first of month `m`, and the day of that month. */
  function MonthAndDay(y: int, doy: int, m: int): (r: (int, int))
    requires 1 <= m <= 12 && 0 <= doy < DaysFromMonth(y, m)
    ensures m <= r.0 <= 12 && 1 <= r.1 <= DaysInMonth(y, r.0)
    decreases 12 - m
  {
    if doy < DaysInMonth(y, m) then (m, doy + 1)
    else MonthAndDay(y, doy - DaysInMonth(y, m), m + 1)
  }

  lemma DaysFromJanuary(y: int)
    ensures DaysFromMonth(y, 1) == DaysInYear(y)
  {
    assert DaysFromMonth(y, 10) == 92;
    assert DaysFromMonth(y, 6) == 214;
    assert DaysFromMonth(y, 3) == 306;
  }

  /** The calendar date of timestamp `t`, `datetime.fromtimestamp(t)` in UTC. */
  function DateOf(t: int): (date: Date)
    ensures 1 <= date.month <= 12 && 1 <= date.day <= DaysInMonth(date.year, date.month)
  {
    var yd := YearAndDay(t / SecondsPerDay, 1970);
    DaysFromJanuary(yd.0);
    var md := MonthAndDay(yd.0, yd.1, 1);
    Date(yd.0, md.0, md.1)
  }

  /** The calendar month of timestamp `t`: the key rows are grouped by. */
  function YearMonthOf(t: int): (ym: YearMonth)
    ensures 1 <= ym.month <= 12
  {
    YearMonth(DateOf(t).year, DateOf(t).month)
  }

  /** Days from 1970-01-01 to `date`: the inverse of `DateOf` on whole days. */
  function DaysSinceEpoch(date: Date): int
    requires 1 <= date.month <= 12
  {
    DaysBeforeYear(date.year) + DaysBeforeMonth(date.year, date.month) + date.day - 1
  }

  lemma DaysBeforeNextYear(y: int)
    ensures DaysBeforeYear(y + 1) == DaysBeforeYear(y) + DaysInYear(y)
  {
  }

  lemma {:induction false} YearAndDayCounts(d: int, y: int)
    ensures DaysBeforeYear(YearAndDay(d, y).0) + YearAndDay(d, y).1 == DaysBeforeYear(y) + d
    decreases d < 0, if d < 0 then -d else d
  {
    if d < 0 {
      YearAndDayCounts(d + DaysInYear(y - 1), y - 1);
      DaysBeforeNextYear(y - 1);
    } else if d >= DaysInYear(y) {
      YearAndDayCounts(d - DaysInYear(y), y + 1);
      DaysBeforeNextYear(y);
    }
  }

  lemma {:induction false} MonthAndDayCounts(y: int, doy: int, m: int)
    requires 1 <= m <= 12 && 0 <= doy < DaysFromMonth(y, m)
    ensures DaysBeforeMonth(y, MonthAndDay(y, doy, m).0) + MonthAndDay(y, doy, m).1 - 1
            == DaysBeforeMonth(y, m) + doy
    decreases 12 - m
  {
    if doy >= DaysInMonth(y, m) {
      MonthAndDayCounts(y, doy - DaysInMonth(y, m), m + 1);
    }
  }

  /** The date of a timestamp names the day the timestamp falls on. */
  lemma DateOfRoundTrip(t: int)
    ensures DaysSinceEpoch(DateOf(t)) == t / SecondsPerDay
  {
    var yd := YearAndDay(t / SecondsPerDay, 1970);
    YearAndDayCounts(t / SecondsPerDay, 1970);
    DaysFromJanuary(yd.0);
    MonthAndDayCounts(yd.0, yd.1, 1);
  }

  /** The full English month name, `strftime("%B")`. */
  function MonthName(m: int): string
    requires 1 <= m <= 12
  {
    if m == 1 then "January" else if m == 2 then "February" else if m == 3 then "March"
    else if m == 4 then "April" else if m == 5 then "May" else if m == 6 then "June"
    else if m == 7 then "July" else if m == 8 then "August" else if m == 9 then "September"
    else if m == 10 then "October" else if m == 11 then "November" else "December"
  }

  /** Month names are distinct and contain no underscore. */
  lemma MonthNameInjective(a: int, b: int)
    requires 1 <= a <= 12 && 1 <= b <= 12
    ensures MonthName(a) == MonthName(b) ==> a == b
    ensures forall k :: 0 <= k < |MonthName(a)| ==> MonthName(a)[k] != '_'
  {
  }
}
