/**
 * Time as the application sees it: a `Date` is a count of milliseconds since the epoch, the
 * calendar is the proleptic Gregorian one of ECMAScript, and the local time zone is taken to
 * be UTC. The operations are the ones the pages use: `setHours(0, 0, 0, 0)` (midnight of the
 * day), `getDay()`, and `setMonth(getMonth() - k)` / `setFullYear(getFullYear() - 1)`, whose
 * day overflow (31 March minus one month is 3 March) follows from the ECMAScript `MakeDay`.
 */
module Calendar {

  const MsPerDay: int := 86400000

  /** The day number of a time value (ECMAScript `Day(t)`, a floor division). */
  function Day(t: int): int {
    t / MsPerDay
  }

  /** `new Date(t).setHours(0, 0, 0, 0)`: the start of the day `t` falls in. */
  function Midnight(t: int): (m: int)
    ensures m <= t < m + MsPerDay
    ensures m % MsPerDay == 0
  {
    Day(t) * MsPerDay
  }

  /** Midnight is idempotent and two times share a midnight exactly when they share a day. */
  lemma MidnightSameDay(t: int, u: int)
    ensures Midnight(Midnight(t)) == Midnight(t)
    ensures Midnight(t) == Midnight(u) <==> Day(t) == Day(u)
  {
  }

  /** Midnight is monotone: an earlier time never has a later midnight. */
  lemma MidnightMonotone(t: int, u: int)
    requires t <= u
    ensures Midnight(t) <= Midnight(u)
  {
    assert Day(t) <= Day(u);
  }

  /** A time lies before the midnight of `u` exactly when it falls on an earlier day. */
  lemma BeforeMidnight(t: int, u: int)
    ensures t < Midnight(u) <==> Day(t) < Day(u)
  {
    if Day(t) < Day(u) {
      assert t < (Day(t) + 1) * MsPerDay <= Day(u) * MsPerDay;
    } else {
      assert Day(u) * MsPerDay <= Day(t) * MsPerDay <= t;
    }
  }

  /** `getDay()`: 0 is Sunday, 6 is Saturday; the epoch fell on a Thursday. */
  function WeekDay(t: int): (w: int)
    ensures 0 <= w < 7
  {
    (Day(t) + 4) % 7
  }

  predicate IsLeap(y: int) {
    y % 4 == 0 && (y % 100 != 0 || y % 400 == 0)
  }

  /** The length of month `m` (0 = January) of year `y` in the Gregorian calendar. */
  function MonthLength(y: int, m: int): (n: int)
    requires 0 <= m < 12
    ensures 28 <= n <= 31
  {
    if m == 1 then (if IsLeap(y) then 29 else 28)
    else if m == 3 || m == 5 || m == 8 || m == 10 then 30
    else 31
  }

  /** The days before each month of a common year, and the whole year. */
  const CommonDaysBefore: seq<int> := [0, 31, 59, 90, 120, 151, 181, 212, 243, 273, 304, 334, 365]

  /** The number of days of year `y` before month `m` (0 = January). */
  function DaysBeforeMonth(y: int, m: int): (d: int)
    requires 0 <= m <= 12
    ensures 28 * m <= d <= 31 * m
    ensures d == CommonDaysBefore[m] + (if m >= 2 && IsLeap(y) then 1 else 0)
  {
    if m == 0 then 0 else DaysBeforeMonth(y, m - 1) + MonthLength(y, m - 1)
  }

  /** A year has 365 days, 366 in a leap year. */
  lemma YearDays(y: int)
    ensures DaysBeforeMonth(y, 12) == if IsLeap(y) then 366 else 365
  {
    var leap := if IsLeap(y) then 1 else 0;
    assert DaysBeforeMonth(y, 2) == 59 + leap;
    assert DaysBeforeMonth(y, 4) == 120 + leap;
    assert DaysBeforeMonth(y, 6) == 181 + leap;
    assert DaysBeforeMonth(y, 8) == 243 + leap;
    assert DaysBeforeMonth(y, 10) == 304 + leap;
  }

  /** January 1970 as a month count 12 * year + month. */
  const EpochMonth: int := 1970 * 12

  /**
   * The day number of the first of month `a` = 12 * year + month: the Gregorian month lengths
   * counted from 1 January 1970, which is day 0.
   */
  function MonthStart(a: int): int
    decreases if a >= EpochMonth then a - EpochMonth else EpochMonth - a
  {
    if a == EpochMonth then 0
    else if a > EpochMonth then MonthStart(a - 1) + MonthLength((a - 1) / 12, (a - 1) % 12)
    else MonthStart(a + 1) - MonthLength(a / 12, a % 12)
  }

  /** Consecutive month starts are one month length apart. */
  lemma MonthStartStep(a: int)
    ensures MonthStart(a + 1) == MonthStart(a) + MonthLength(a / 12, a % 12)
  {
  }

  /** Within a year the first of month `m` lies `DaysBeforeMonth(y, m)` days after 1 January. */
  lemma {:induction false} MonthStartInYear(y: int, m: int)
    requires 0 <= m <= 12
    ensures MonthStart(12 * y + m) == MonthStart(12 * y) + DaysBeforeMonth(y, m)
  {
    if m > 0 {
      MonthStartInYear(y, m - 1);
      var a := 12 * y + m - 1;
      assert a / 12 == y && a % 12 == m - 1;
      MonthStartStep(a);
    }
  }

  /** Consecutive 1 Januaries are a year's length apart. */
  lemma YearStartStep(y: int)
    ensures MonthStart(12 * (y + 1)) - MonthStart(12 * y) == if IsLeap(y) then 366 else 365
  {
    MonthStartInYear(y, 12);
    YearDays(y);
  }

  /** ECMAScript `MakeDay(y, m, d)`: months outside 0..11 carry into the year, days past the month's end carry on. */
  function MakeDay(y: int, m: int, d: int): int {
    MonthStart(12 * y + m) + d - 1
  }

  /** `MakeDay` takes the ECMAScript steps: year `y + floor(m / 12)`, month `m mod 12`, then the date. */
  lemma MakeDayCarries(y: int, m: int, d: int)
    ensures MakeDay(y, m, d) == MonthStart(12 * (y + m / 12)) + DaysBeforeMonth(y + m / 12, m % 12) + d - 1
  {
    MonthStartInYear(y + m / 12, m % 12);
  }

  lemma {:induction false} MonthStartMonotone(a: int, b: int)
    requires a <= b
    ensures MonthStart(a) <= MonthStart(b)
    decreases b - a
  {
    if a < b {
      MonthStartStep(a);
      MonthStartMonotone(a + 1, b);
    }
  }

  /** A local calendar date and time of day, as `new Date()` splits into fields. */
  datatype Civil = Civil(year: int, month: int, date: int, msOfDay: int)

  /** ECMAScript `MakeDate(MakeDay(year, month, date), msOfDay)`. */
  function TimeOf(c: Civil): int {
    MakeDay(c.year, c.month, c.date) * 86400000 + c.msOfDay
  }

  /** `d.setMonth(d.getMonth() - k)`: same date and time of day, `k` months earlier. */
  function MonthsBefore(c: Civil, k: int): int {
    MakeDay(c.year, c.month - k, c.date) * 86400000 + c.msOfDay
  }

  /** `d.setFullYear(d.getFullYear() - 1)`. */
  function YearBefore(c: Civil): int {
    MakeDay(c.year - 1, c.month, c.date) * 86400000 + c.msOfDay
  }

  /** A year earlier is the same instant as twelve months earlier. */
  lemma YearIsTwelveMonths(c: Civil)
    ensures YearBefore(c) == MonthsBefore(c, 12)
  {
    assert 12 * (c.year - 1) + c.month == 12 * c.year + (c.month - 12);
  }

  /** A later month of the same year and date never has an earlier day number. */
  lemma MakeDayMonotone(y: int, m1: int, m2: int, d: int)
    requires m1 <= m2
    ensures MakeDay(y, m1, d) <= MakeDay(y, m2, d)
  {
    var a, b := 12 * y + m1, 12 * y + m2;
    MonthStartMonotone(a, b);
    assert MakeDay(y, m1, d) == MonthStart(a) + d - 1;
  }

  /** Going back more months never lands later in time. */
  lemma MonthsBeforeMonotone(c: Civil, j: int, k: int)
    requires j <= k
    ensures MonthsBefore(c, k) <= MonthsBefore(c, j)
  {
    MakeDayMonotone(c.year, c.month - k, c.month - j, c.date);
    TimeMonotone(MakeDay(c.year, c.month - k, c.date), MakeDay(c.year, c.month - j, c.date), c.msOfDay);
  }

  lemma TimeMonotone(x: int, y: int, ms: int)
    requires x <= y
    ensures x * 86400000 + ms <= y * 86400000 + ms
  {
  }
}
