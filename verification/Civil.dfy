/** The proleptic Gregorian calendar (section 5.7 and Appendix C of RFC 3339) and the
    arithmetic of Go's `time` package on it, in a location with a constant offset.

    An instant is an integer number of nanoseconds since the zero time, 1 January of year 1,
    00:00:00 UTC, so that `IsZero` means "equals 0".  Day 0 is that same day, a Monday. */
module Civil {

  const MAX_INT64: int := 0x7FFF_FFFF_FFFF_FFFF
  const MIN_INT64: int := -0x8000_0000_0000_0000

  type Instant = int

  /** A duration of `n` days, in nanoseconds. */
  function Days(n: int): int {
    86_400_000_000_000 * n
  }

  /** `Time.Sub`: the difference, saturated to what a Duration can hold. */
  function Sub(t: Instant, u: Instant): int {
    if t - u > MAX_INT64 then MAX_INT64 else if t - u < MIN_INT64 then MIN_INT64 else t - u
  }

  /** Two's-complement wrap-around of 64-bit integer arithmetic. */
  function Wrap64(x: int): int {
    (x - MIN_INT64) % 0x1_0000_0000_0000_0000 + MIN_INT64
  }

  predicate IsLeap(y: int) {
    y % 4 == 0 && (y % 100 != 0 || y % 400 == 0)
  }

  function YearLength(y: int): int {
    if IsLeap(y) then 366 else 365
  }

  function MonthLength(y: int, m: int): int
    requires 1 <= m <= 12
  {
    if m == 2 then (if IsLeap(y) then 29 else 28)
    else if m == 4 || m == 6 || m == 9 || m == 11 then 30
    else 31
  }

  /** Days from 1 January of year 1 to 1 January of year `y`; negative for earlier years. */
  function DaysBeforeYear(y: int): int
    decreases if y < 1 then 1 - y else y - 1
  {
    if y == 1 then 0
    else if y > 1 then DaysBeforeYear(y - 1) + YearLength(y - 1)
    else DaysBeforeYear(y + 1) - YearLength(y)
  }

  function DaysBeforeMonth(y: int, m: int): int
    requires 1 <= m <= 12
    decreases m
  {
    if m == 1 then 0 else DaysBeforeMonth(y, m - 1) + MonthLength(y, m - 1)
  }

  /** Months are numbered across years, so that stepping over December needs no case. */
  function MonthIndex(y: int, m: int): int {
    12 * y + m - 1
  }

  function MonthStart(mi: int): int {
    DaysBeforeYear(mi / 12) + DaysBeforeMonth(mi / 12, mi % 12 + 1)
  }

  function LengthOf(mi: int): int {
    MonthLength(mi / 12, mi % 12 + 1)
  }

  /** The day `time.Date(y, m, d, ...)` falls on: months and days outside their usual range
      are normalised, day 0 being the last day of the month before. */
  function DayNumber(y: int, m: int, d: int): int {
    MonthStart(MonthIndex(y, m)) + d - 1
  }

  datatype Date = Date(year: int, month: int, day: int) {
    predicate Valid() {
      1 <= month <= 12 && 1 <= day <= MonthLength(year, month)
    }
  }

  /** The year that contains day `n`, searched from year `y`. */
  function YearFrom(n: int, y: int): (r: int)
    ensures DaysBeforeYear(r) <= n < DaysBeforeYear(r) + YearLength(r)
    decreases n < DaysBeforeYear(y), if n < DaysBeforeYear(y) then DaysBeforeYear(y) - n else n - DaysBeforeYear(y)
  {
    NextYear(y);
    NextYear(y - 1);
    if n < DaysBeforeYear(y) then YearFrom(n, y - 1)
    else if n < DaysBeforeYear(y) + YearLength(y) then y
    else YearFrom(n, y + 1)
  }

  function MonthFrom(y: int, m: int, rest: int): (r: (int, int))
    requires 1 <= m <= 12 && 0 <= rest
    requires DaysBeforeMonth(y, m) + rest < YearLength(y)
    ensures m <= r.0 <= 12 && 1 <= r.1 <= MonthLength(y, r.0)
    ensures DaysBeforeMonth(y, r.0) + r.1 - 1 == DaysBeforeMonth(y, m) + rest
    decreases 12 - m
  {
    if rest < MonthLength(y, m) then (m, rest + 1)
    else
      if m == 12 then
        DaysBeforeDecember(y);
        assert false; (12, 31)
      else MonthFrom(y, m + 1, rest - MonthLength(y, m))
  }

  /** `Time.Date` of a day number. */
  function DateOf(n: int): (d: Date)
    ensures d.Valid()
    ensures DaysBeforeYear(d.year) + DaysBeforeMonth(d.year, d.month) + d.day - 1 == n
  {
    var y := YearFrom(n, 1);
    assert DaysBeforeMonth(y, 1) == 0;
    var md := MonthFrom(y, 1, n - DaysBeforeYear(y));
    Date(y, md.0, md.1)
  }

  /** Sunday is 0, as in Go. */
  function Weekday(n: int): int {
    (n + 1) % 7
  }

  lemma DaysBeforeDecember(y: int)
    ensures DaysBeforeMonth(y, 12) + 31 == YearLength(y)
  {
    assert DaysBeforeMonth(y, 3) == 31 + MonthLength(y, 2);
    assert DaysBeforeMonth(y, 5) == DaysBeforeMonth(y, 3) + 61;
    assert DaysBeforeMonth(y, 7) == DaysBeforeMonth(y, 5) + 61;
    assert DaysBeforeMonth(y, 9) == DaysBeforeMonth(y, 7) + 62;
    assert DaysBeforeMonth(y, 11) == DaysBeforeMonth(y, 9) + 61;
  }

  lemma NextYear(y: int)
    ensures DaysBeforeYear(y + 1) == DaysBeforeYear(y) + YearLength(y)
  {
  }

  /** Months follow one another without gap or overlap, across December and leap years. */
  lemma NextMonth(mi: int)
    ensures MonthStart(mi + 1) == MonthStart(mi) + LengthOf(mi)
    ensures 28 <= LengthOf(mi) <= 31
  {
    if mi % 12 == 11 {
      assert (mi + 1) / 12 == mi / 12 + 1 && (mi + 1) % 12 == 0;
      DaysBeforeDecember(mi / 12);
      NextYear(mi / 12);
    } else {
      assert (mi + 1) / 12 == mi / 12 && (mi + 1) % 12 == mi % 12 + 1;
    }
  }

  lemma {:induction false} MonthsIncrease(mi: int, mj: int)
    requires mi < mj
    ensures MonthStart(mi) + LengthOf(mi) <= MonthStart(mj)
    decreases mj - mi
  {
    NextMonth(mi);
    if mi + 1 < mj {
      MonthsIncrease(mi + 1, mj);
      NextMonth(mi + 1);
    }
  }

  lemma QuotientStep4(n: int)
    ensures n / 4 - (n - 1) / 4 == if n % 4 == 0 then 1 else 0
  {
  }

  lemma QuotientStep100(n: int)
    ensures n / 100 - (n - 1) / 100 == if n % 100 == 0 then 1 else 0
  {
  }

  lemma QuotientStep400(n: int)
    ensures n / 400 - (n - 1) / 400 == if n % 400 == 0 then 1 else 0
  {
  }

  lemma CenturiesAreFourths(n: int)
    ensures n % 100 == 0 ==> n % 4 == 0
    ensures n % 400 == 0 ==> n % 100 == 0
  {
    if n % 100 == 0 {
      assert n == 4 * (25 * (n / 100));
    }
    if n % 400 == 0 {
      assert n == 100 * (4 * (n / 400));
    }
  }

  lemma LeapFollowsFromQuotients(n: int)
    ensures YearLength(n) == 365 + (n / 4 - (n - 1) / 4) - (n / 100 - (n - 1) / 100) + (n / 400 - (n - 1) / 400)
  {
    CenturiesAreFourths(n);
    QuotientStep4(n);
    QuotientStep100(n);
    QuotientStep400(n);
    var a, b, c := n / 4 - (n - 1) / 4, n / 100 - (n - 1) / 100, n / 400 - (n - 1) / 400;
    assert YearLength(n) == 365 + a - b + c;
  }

  lemma YearByYear(y: int)
    requires y > 1
    ensures DaysBeforeYear(1) == 0 && DaysBeforeYear(y) == DaysBeforeYear(y - 1) + YearLength(y - 1)
  {
    hide YearLength;
  }

  /** Every fourth year adds a day, except three centuries out of four. */
  lemma {:induction false} LeapDaysCounted(y: int)
    requires y >= 1
    ensures DaysBeforeYear(y) == 365 * (y - 1) + (y - 1) / 4 - (y - 1) / 100 + (y - 1) / 400
  {
    if y > 1 {
      hide *;
      LeapDaysCounted(y - 1);
      YearByYear(y);
      LeapFollowsFromQuotients(y - 1);
    }
  }

  /** The lengths of the months, in a common and in a leap year. */
  lemma MonthLengths(y: int)
    ensures var lengths := seq(12, i requires 0 <= i < 12 => MonthLength(y, i + 1));
      lengths == [31, if y % 4 == 0 && (y % 100 != 0 || y % 400 == 0) then 29 else 28, 31, 30, 31, 30, 31, 31, 30, 31, 30, 31]
  {
  }

  /** 1 January 1970 was a Thursday, 62,135,596,800 seconds after the zero time. */
  lemma UnixEpoch()
    ensures DayNumber(1970, 1, 1) * 86_400 == 62_135_596_800 && Weekday(DayNumber(1970, 1, 1)) == 4
  {
    hide DaysBeforeYear;
    LeapDaysCounted(1970);
    assert MonthIndex(1970, 1) == 12 * 1970;
    assert DayNumber(1970, 1, 1) == DaysBeforeYear(1970) + DaysBeforeMonth(1970, 1);
  }

  /** Reading a day's date and building the day from it again changes nothing. */
  lemma DateRoundTrip(n: int)
    ensures var d := DateOf(n); DayNumber(d.year, d.month, d.day) == n
  {
    var d := DateOf(n);
    assert MonthIndex(d.year, d.month) / 12 == d.year;
    assert MonthIndex(d.year, d.month) % 12 == d.month - 1;
  }

  lemma DateUnique(d: Date, e: Date)
    requires d.Valid() && e.Valid()
    requires DayNumber(d.year, d.month, d.day) == DayNumber(e.year, e.month, e.day)
    ensures d == e
  {
    hide MonthStart;
    var mi, mj := MonthIndex(d.year, d.month), MonthIndex(e.year, e.month);
    assert mi / 12 == d.year && mi % 12 == d.month - 1;
    assert mj / 12 == e.year && mj % 12 == e.month - 1;
    if mi < mj {
      MonthsIncrease(mi, mj);
    } else if mj < mi {
      MonthsIncrease(mj, mi);
    }
  }

  /** A valid date is the date of its own day: dates and days are in bijection. */
  lemma DayRoundTrip(d: Date)
    requires d.Valid()
    ensures DateOf(DayNumber(d.year, d.month, d.day)) == d
  {
    var n := DayNumber(d.year, d.month, d.day);
    DateRoundTrip(n);
    DateUnique(d, DateOf(n));
  }

  // ----- A fixed-offset location

  /** The local civil day an instant falls on, `offset` nanoseconds east of UTC. */
  function LocalDay(t: Instant, offset: int): int {
    (t + offset) / 86_400_000_000_000
  }

  /** Hour, minute, second and nanosecond together: the local time of day. */
  function TimeOfDay(t: Instant, offset: int): int {
    (t + offset) % 86_400_000_000_000
  }

  /** `time.Date` with its clock arguments given as one time of day. */
  function At(y: int, m: int, d: int, timeOfDay: int, offset: int): Instant {
    Days(DayNumber(y, m, d)) + timeOfDay - offset
  }

  /** `Time.AddDate(0, 0, days)`. */
  function AddDays(t: Instant, days: int, offset: int): Instant {
    var d := DateOf(LocalDay(t, offset));
    At(d.year, d.month, d.day + days, TimeOfDay(t, offset), offset)
  }

  lemma AddDaysIsShift(t: Instant, days: int, offset: int)
    ensures AddDays(t, days, offset) == t + Days(days)
  {
    DateRoundTrip(LocalDay(t, offset));
    var d := DateOf(LocalDay(t, offset));
    assert DayNumber(d.year, d.month, d.day + days) == LocalDay(t, offset) + days;
  }
}
