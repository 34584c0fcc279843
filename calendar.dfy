/**
 * The proleptic Gregorian calendar behind `System.DateTime`: the calendar date
 * of a tick count, `DateTime.Date`, `DateTime.Year` and `DateTime.AddYears`.
 * Day numbers count days since 0001-01-01 (day 0).
 */
module Calendar {
  import opened Common

  predicate IsLeapYear(y: int)
  {
    y % 4 == 0 && (y % 100 != 0 || y % 400 == 0)
  }

  function DaysInYear(y: int): nat
  {
    if IsLeapYear(y) then 366 else 365
  }

  function DaysInMonth(y: int, m: int): (r: nat)
    requires 1 <= m <= 12
    ensures 28 <= r <= 31
  {
    if m == 2 then (if IsLeapYear(y) then 29 else 28)
    else if m == 4 || m == 6 || m == 9 || m == 11 then 30
    else 31
  }

  datatype Date = Date(year: nat, month: nat, day: nat)

  predicate ValidDate(d: Date)
  {
    d.year >= 1 && 1 <= d.month <= 12 && 1 <= d.day <= DaysInMonth(d.year, d.month)
  }

  function DaysBeforeYear(y: nat): nat
    requires y >= 1
  {
    if y == 1 then 0 else DaysBeforeYear(y - 1) + DaysInYear(y - 1)
  }

  function DaysBeforeMonth(y: int, m: nat): nat
    requires 1 <= m <= 12
  {
    if m == 1 then 0 else DaysBeforeMonth(y, m - 1) + DaysInMonth(y, m - 1)
  }

  /** The twelve months fill the year exactly. */
  lemma MonthsFillYear(y: int)
    ensures DaysBeforeMonth(y, 12) + DaysInMonth(y, 12) == DaysInYear(y)
  {
    assert DaysBeforeMonth(y, 2) == 31;
    assert DaysBeforeMonth(y, 3) == 31 + DaysInMonth(y, 2);
    assert DaysBeforeMonth(y, 4) == 62 + DaysInMonth(y, 2);
    assert DaysBeforeMonth(y, 5) == 92 + DaysInMonth(y, 2);
    assert DaysBeforeMonth(y, 6) == 123 + DaysInMonth(y, 2);
    assert DaysBeforeMonth(y, 7) == 153 + DaysInMonth(y, 2);
    assert DaysBeforeMonth(y, 8) == 184 + DaysInMonth(y, 2);
    assert DaysBeforeMonth(y, 9) == 215 + DaysInMonth(y, 2);
    assert DaysBeforeMonth(y, 10) == 245 + DaysInMonth(y, 2);
    assert DaysBeforeMonth(y, 11) == 276 + DaysInMonth(y, 2);
  }

  /** Days from 0001-01-01 to the given date. */
  function DayNumber(d: Date): nat
    requires ValidDate(d)
  {
    DaysBeforeYear(d.year) + DaysBeforeMonth(d.year, d.month) + d.day - 1
  }

  /** Walks forward year by year from `y` until `rest` days fit in one year. */
  function YearAndOffset(rest: nat, y: nat): (r: (nat, nat))
    requires y >= 1
    ensures r.0 >= y && r.1 < DaysInYear(r.0)
    ensures DaysBeforeYear(r.0) + r.1 == DaysBeforeYear(y) + rest
    decreases rest
  {
    if rest < DaysInYear(y) then (y, rest) else YearAndOffset(rest - DaysInYear(y), y + 1)
  }

  /** Walks forward month by month from `m` within year `y`. */
  function MonthAndDay(rest: nat, y: nat, m: nat): (r: (nat, nat))
    requires 1 <= m <= 12
    requires DaysBeforeMonth(y, m) + rest < DaysInYear(y)
    ensures m <= r.0 <= 12 && 1 <= r.1 <= DaysInMonth(y, r.0)
    ensures DaysBeforeMonth(y, r.0) + r.1 - 1 == DaysBeforeMonth(y, m) + rest
    decreases 12 - m
  {
    MonthsFillYear(y);
    if rest < DaysInMonth(y, m) || m == 12 then (m, rest + 1)
    else MonthAndDay(rest - DaysInMonth(y, m), y, m + 1)
  }

  /** The calendar date `n` days after 0001-01-01; the inverse of DayNumber. */
  function DateOfDayNumber(n: nat): (d: Date)
    ensures ValidDate(d) && DayNumber(d) == n
  {
    var yo := YearAndOffset(n, 1);
    var md := MonthAndDay(yo.1, yo.0, 1);
    Date(yo.0, md.0, md.1)
  }

  /** The calendar date of an instant. */
  function DateOf(t: DateTime): (d: Date)
    ensures ValidDate(d)
  {
    DateOfDayNumber(t / TicksPerDay)
  }

  /** `DateTime.Year`. */
  function Year(t: DateTime): nat
  {
    DateOf(t).year
  }

  /** `DateTime.Date`: the instant truncated to midnight. */
  function DatePart(t: DateTime): (r: DateTime)
    ensures r <= t && t - r < TicksPerDay && r % TicksPerDay == 0
  {
    (t / TicksPerDay) * TicksPerDay
  }

  /**
   * `DateTime.AddYears(k)`: same month, the day clamped to the length of that
   * month in the target year, same time of day. The caller keeps the target
   * year at 1 or later (the .NET method throws otherwise).
   */
  function AddYears(t: DateTime, k: int): DateTime
    requires Year(t) + k >= 1
  {
    DayNumber(Clamped(Year(t) + k, DateOf(t).month, DateOf(t).day)) * TicksPerDay + t % TicksPerDay
  }

  /** Moving an instant to year `y` lands on its clamped month and day there, at the same time of day. */
  lemma AddYearsToYear(t: DateTime, y: nat)
    requires y >= 1
    ensures Year(t) + -(Year(t) - y) >= 1
    ensures AddYears(t, -(Year(t) - y))
         == DayNumber(Clamped(y, DateOf(t).month, DateOf(t).day)) * TicksPerDay + t % TicksPerDay
  {
    var k := -(Year(t) - y);
    var m := DayNumber(Clamped(Year(t) + k, DateOf(t).month, DateOf(t).day));
    assert m == DayNumber(Clamped(y, DateOf(t).month, DateOf(t).day)) by {
      assert Year(t) + k == y;
    }
    assert AddYears(t, k) == m * TicksPerDay + t % TicksPerDay;
  }

  /** Midnight of an instant is its day number in ticks. */
  lemma DatePartIsDayStart(t: DateTime)
    ensures DatePart(t) == DayNumber(DateOf(t)) * TicksPerDay
  {
  }

  /** Month `m` of year `y`, with day `d` cut back to the last day of that month. */
  function Clamped(y: nat, m: nat, d: nat): (r: Date)
    requires y >= 1 && 1 <= m <= 12 && d >= 1
    ensures ValidDate(r) && r.year == y && r.month == m
    ensures r.day == d || (r.day == DaysInMonth(y, m) < d)
  {
    Date(y, m, Min(d, DaysInMonth(y, m)))
  }

  /**
   * A date of year `y` lies after month `m` and day `d` clamped into that year
   * exactly when (m, d) comes earlier in the year than the date's own month and day.
   */
  lemma ClampedBefore(b: Date, m: nat, d: nat)
    requires ValidDate(b) && 1 <= m <= 12 && d >= 1
    ensures DayNumber(b) > DayNumber(Clamped(b.year, m, d)) <==> EarlierInYear(m, d, b.month, b.day)
  {
    var c := Clamped(b.year, m, d);
    DayNumberOrderWithinYear(b.year, m, c.day, b.month, b.day);
    if m == b.month {
      assert b.day <= DaysInMonth(b.year, b.month);
    }
  }

  /** `a` falls strictly earlier in the year than `b` (month, then day). */
  predicate EarlierInYear(am: int, ad: int, bm: int, bd: int)
  {
    am < bm || (am == bm && ad < bd)
  }

  /** Day numbers of two dates of one year are ordered as (month, day) pairs. */
  lemma {:induction false} DayNumberOrderWithinYear(y: nat, m1: nat, d1: nat, m2: nat, d2: nat)
    requires ValidDate(Date(y, m1, d1)) && ValidDate(Date(y, m2, d2))
    ensures DayNumber(Date(y, m1, d1)) < DayNumber(Date(y, m2, d2)) <==> EarlierInYear(m1, d1, m2, d2)
  {
    if m1 < m2 {
      MonthStartsGrow(y, m1, m2);
    } else if m2 < m1 {
      MonthStartsGrow(y, m2, m1);
    }
  }

  lemma {:induction false} MonthStartsGrow(y: int, m1: nat, m2: nat)
    requires 1 <= m1 < m2 <= 12
    ensures DaysBeforeMonth(y, m1) + DaysInMonth(y, m1) <= DaysBeforeMonth(y, m2)
    decreases m2 - m1
  {
    if m1 + 1 < m2 {
      MonthStartsGrow(y, m1 + 1, m2);
    }
  }
}
