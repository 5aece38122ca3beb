/**
 * Calendar arithmetic as JavaScript's Date performs it in UTC: proleptic
 * Gregorian dates, instants, and `setMonth(getMonth() + k)`.
 *
 * A date string "YYYY-MM-DD" denotes midnight UTC of that date. An instant
 * is a date together with the milliseconds elapsed since its midnight, and
 * instants are ordered first by date and then by time of day, which is the
 * order of milliseconds since the epoch.
 */
module Calendar {

  datatype Date = Date(year: int, month: int, day: int)

  const MsPerDay: int := 86_400_000

  predicate IsLeapYear(y: int) {
    y % 4 == 0 && (y % 100 != 0 || y % 400 == 0)
  }

  function DaysInMonth(y: int, m: int): (n: int)
    requires 1 <= m <= 12
    ensures 28 <= n <= 31
    ensures m == 2 ==> (n == 29 <==> IsLeapYear(y))
  {
    if m == 2 then (if IsLeapYear(y) then 29 else 28)
    else if m == 4 || m == 6 || m == 9 || m == 11 then 30
    else 31
  }

  predicate ValidDate(d: Date) {
    1 <= d.month <= 12 && 1 <= d.day <= DaysInMonth(d.year, d.month)
  }

  /** A date that exists in the calendar. */
  type CivilDate = d: Date | ValidDate(d) witness Date(1970, 1, 1)

  /** Months elapsed since January of year 0; orders (year, month) pairs. */
  function MonthIndex(d: Date): int {
    d.year * 12 + (d.month - 1)
  }

  /** Strict calendar order: earlier year, then earlier month, then earlier day. */
  predicate DateBefore(a: Date, b: Date) {
    a.year < b.year ||
    (a.year == b.year && (a.month < b.month || (a.month == b.month && a.day < b.day)))
  }

  /** The later of two dates. */
  function LaterDate(a: CivilDate, b: CivilDate): (r: CivilDate)
    ensures r == a || r == b
    ensures !DateBefore(r, a) && !DateBefore(r, b)
  {
    if DateBefore(a, b) then b else a
  }

  lemma {:induction false} DateBeforeTransitive(a: Date, b: Date, c: Date)
    requires DateBefore(a, b) && DateBefore(b, c)
    ensures DateBefore(a, c)
  {
  }

  /** On dates in range, a smaller month index means an earlier date. */
  lemma {:induction false} MonthIndexOrder(a: CivilDate, b: CivilDate)
    requires MonthIndex(a) < MonthIndex(b)
    ensures DateBefore(a, b)
  {
  }

  /** The first day of the month whose index is t. */
  function MonthOfIndex(t: int): (r: CivilDate)
    ensures MonthIndex(r) == t && r.day == 1
  {
    Date(t / 12, t % 12 + 1, 1)
  }

  /**
   * `setMonth(getMonth() + k)`: keeps the day of the month and moves k months,
   * carrying into the year; when the target month is too short for the day, the
   * surplus days roll over into the following month (31 January + 1 month is
   * 2 March, or 3 March outside leap years).
   */
  function AddMonths(d: CivilDate, k: int): (r: CivilDate)
    ensures var t := MonthOfIndex(MonthIndex(d) + k);
            if d.day <= DaysInMonth(t.year, t.month)
            then MonthIndex(r) == MonthIndex(d) + k && r.day == d.day
            else MonthIndex(r) == MonthIndex(d) + k + 1 && r.day == d.day - DaysInMonth(t.year, t.month)
  {
    var t := MonthIndex(d) + k;
    var y, m := t / 12, t % 12 + 1;
    // December has 31 days, so a roll-over never leaves the year
    if d.day <= DaysInMonth(y, m) then Date(y, m, d.day)
    else Date(y, m + 1, d.day - DaysInMonth(y, m))
  }

  /** Adding no months changes nothing. */
  lemma {:induction false} AddMonthsZero(d: CivilDate)
    ensures AddMonths(d, 0) == d
  {
    var t := MonthOfIndex(MonthIndex(d));
    assert t.year == d.year && t.month == d.month;
  }

  /** Adding a positive number of months yields a strictly later date. */
  lemma {:induction false} AddMonthsAdvances(d: CivilDate, k: int)
    requires k >= 1
    ensures DateBefore(d, AddMonths(d, k))
  {
    MonthIndexOrder(d, AddMonths(d, k));
  }

  /** Adding a non-negative number of months never goes back in time. */
  lemma {:induction false} AddMonthsNotEarlier(d: CivilDate, k: int)
    requires k >= 0
    ensures !DateBefore(AddMonths(d, k), d)
  {
    if k == 0 {
      AddMonthsZero(d);
    } else {
      AddMonthsAdvances(d, k);
    }
  }

  /** For a day that every month has, adding months composes. */
  lemma {:induction false} AddMonthsCompose(d: CivilDate, j: int, k: int)
    requires d.day <= 28
    ensures AddMonths(AddMonths(d, j), k) == AddMonths(d, j + k)
  {
    var a := AddMonths(d, j);
    var b := AddMonths(a, k);
    var c := AddMonths(d, j + k);
    assert MonthIndex(b) == MonthIndex(c) && b.day == c.day;
    assert b.year == c.year by {
      assert b.year * 12 + b.month == c.year * 12 + c.month;
    }
  }

  /** The roll-over rule on month ends: 31 January plus one month. */
  lemma JanuaryEndPlusOneMonth()
    ensures AddMonths(Date(2024, 1, 31), 1) == Date(2024, 3, 2)
  {
    assert MonthOfIndex(2024 * 12 + 1) == Date(2024, 2, 1);
  }

  /** A moment in UTC: a date and the milliseconds elapsed since its midnight. */
  datatype Instant = Instant(date: CivilDate, msOfDay: int)

  predicate ValidInstant(t: Instant) {
    0 <= t.msOfDay < MsPerDay
  }

  /** `new Date("YYYY-MM-DD")`: midnight UTC of the date. */
  function Midnight(d: CivilDate): (t: Instant)
    ensures ValidInstant(t) && t.date == d && t.msOfDay == 0
  {
    Instant(d, 0)
  }

  /** `a < b` on Date objects: the order of milliseconds since the epoch. */
  predicate InstantBefore(a: Instant, b: Instant) {
    DateBefore(a.date, b.date) || (a.date == b.date && a.msOfDay < b.msOfDay)
  }

  /** A date is already behind an instant of the same day unless that instant is exactly midnight. */
  lemma {:induction false} SameDayMidnightIsBefore(now: Instant)
    requires ValidInstant(now)
    ensures InstantBefore(Midnight(now.date), now) <==> now.msOfDay > 0
  {
  }

  /** Midnight of a date is before an instant exactly when the date is before the instant's date, or is that date and the instant is past midnight. */
  lemma {:induction false} MidnightBeforeIff(d: CivilDate, now: Instant)
    requires ValidInstant(now)
    ensures InstantBefore(Midnight(d), now) <==> DateBefore(d, now.date) || (d == now.date && now.msOfDay > 0)
  {
  }

}
