/**
 * Instants and local calendar days. An instant is a whole number of
 * milliseconds since 1970-01-01T00:00:00Z, as JavaScript's `Date` holds it.
 * Local time is a fixed offset from UTC, so every local day is exactly
 * `MsPerDay` long. The offset of eight hours is a modelling choice: nothing
 * proved here depends on its value.
 * A day is identified by its day number (day 0 is 1970-01-01 local); the
 * application's `yyyy-MM-dd` day keys are a one-to-one rendering of it.
 */
module Calendar {

  const MsPerDay: int := 86_400_000
  const LocalOffsetMs: int := 8 * 3_600_000

  /** The local calendar day an instant falls on: the day whose local span holds it. */
  function DayOf(t: int): (d: int)
    ensures d * MsPerDay <= t + LocalOffsetMs < (d + 1) * MsPerDay
  {
    (t + LocalOffsetMs) / MsPerDay
  }

  /** Local midnight at the start of day `d`. */
  function StartOfDay(d: int): (t: int)
    ensures DayOf(t) == d
  {
    assert (d * MsPerDay - LocalOffsetMs) + LocalOffsetMs == d * MsPerDay;
    d * MsPerDay - LocalOffsetMs
  }

  /** The milliseconds elapsed since local midnight. */
  function TimeOfDay(t: int): (ms: int)
    ensures 0 <= ms < MsPerDay
    ensures t == StartOfDay(DayOf(t)) + ms
  {
    t - StartOfDay(DayOf(t))
  }

  /**
   * `d.setHours(23, 59, 59, 999)`: the last millisecond of the local day of
   * `t`. One millisecond later is the next day.
   */
  function EndOfDay(t: int): (e: int)
    ensures t <= e
    ensures DayOf(e) == DayOf(t)
    ensures DayOf(e + 1) == DayOf(t) + 1
  {
    var e := StartOfDay(DayOf(t)) + MsPerDay - 1;
    assert e + 1 == StartOfDay(DayOf(t) + 1);
    e
  }

  /** Two instants on the same local day with the same time of day are equal. */
  lemma SameDayAndTime(a: int, b: int)
    requires DayOf(a) == DayOf(b) && TimeOfDay(a) == TimeOfDay(b)
    ensures a == b
  {
  }

  /**
   * `d.setDate(d.getDate() + n)`: the same local time of day, `n` calendar
   * days later (or earlier, for negative `n`).
   */
  function AddDays(t: int, n: int): (r: int)
    ensures DayOf(r) == DayOf(t) + n
    ensures TimeOfDay(r) == TimeOfDay(t)
  {
    var r := t + n * MsPerDay;
    assert r == StartOfDay(DayOf(t) + n) + TimeOfDay(t);
    DayOfWithin(DayOf(t) + n, TimeOfDay(t));
    r
  }

  /** An instant on an earlier day, or on the same day at no later time, is no later. */
  lemma EarlierDayIsEarlier(a: int, b: int)
    requires DayOf(a) < DayOf(b) || (DayOf(a) == DayOf(b) && TimeOfDay(a) <= TimeOfDay(b))
    ensures a <= b
  {
    var da, db := DayOf(a), DayOf(b);
    assert a == da * MsPerDay - LocalOffsetMs + TimeOfDay(a);
    assert b == db * MsPerDay - LocalOffsetMs + TimeOfDay(b);
    if da < db {
      assert da * MsPerDay + MsPerDay <= db * MsPerDay;
    }
  }

  /** A later instant falls on the same or a later local day. */
  lemma DayOfMonotone(a: int, b: int)
    requires a <= b
    ensures DayOf(a) <= DayOf(b)
  {
    assert a == DayOf(a) * MsPerDay - LocalOffsetMs + TimeOfDay(a);
    assert b == DayOf(b) * MsPerDay - LocalOffsetMs + TimeOfDay(b);
  }

  lemma DayOfWithin(d: int, ms: int)
    requires 0 <= ms < MsPerDay
    ensures DayOf(StartOfDay(d) + ms) == d
  {
    assert StartOfDay(d) + ms + LocalOffsetMs == d * MsPerDay + ms;
  }

  // ECMA-262, section 21.4.1 (Time Values and Time Range): the proleptic
  // Gregorian calendar as `new Date(year, month, date)` computes it.

  predicate InLeapYear(y: int)
  {
    y % 4 == 0 && (y % 100 != 0 || y % 400 == 0)
  }

  function DaysInYear(y: int): int
  {
    if InLeapYear(y) then 366 else 365
  }

  /** The number of the day on which year `y` begins (ECMA-262 DayFromYear). */
  function DayFromYear(y: int): int
  {
    365 * (y - 1970) + (y - 1969) / 4 - (y - 1901) / 100 + (y - 1601) / 400
  }

  /** Month numbers are 0-based, as in JavaScript: 0 is January. */
  function DaysInMonth(y: int, m: int): int
    requires 0 <= m < 12
  {
    if m == 1 then (if InLeapYear(y) then 29 else 28)
    else if m == 3 || m == 5 || m == 8 || m == 10 then 30
    else 31
  }

  function DaysBeforeMonth(y: int, m: int): int
    requires 0 <= m <= 12
  {
    if m == 0 then 0 else DaysBeforeMonth(y, m - 1) + DaysInMonth(y, m - 1)
  }

  lemma {:induction false} DaysBeforeMonthBounds(y: int, m: int)
    requires 0 <= m <= 12
    ensures 0 <= DaysBeforeMonth(y, m) <= 31 * m
  {
    if m > 0 {
      DaysBeforeMonthBounds(y, m - 1);
    }
  }

  /**
   * ECMA-262 MakeDay: the day number of `date` in `month` of `year`. A month
   * outside 0..11 carries into the year, and a date outside the month carries
   * into the neighbouring months (`date` 0 is the last day of the month before).
   */
  function MakeDay(year: int, month: int, date: int): int
  {
    var y := year + month / 12;
    var m := month % 12;
    DayFromYear(y) + DaysBeforeMonth(y, m) + date - 1
  }

  /**
   * `new Date(year, month, date)`: local midnight of that day. JavaScript reads
   * a year from 0 to 99 as 1900 + year; here the year is taken as given.
   */
  function LocalDate(year: int, month: int, date: int): (t: int)
    ensures DayOf(t) == MakeDay(year, month, date)
    ensures TimeOfDay(t) == 0
  {
    StartOfDay(MakeDay(year, month, date))
  }

  lemma Step4(y: int)
    ensures (y - 1968) / 4 - (y - 1969) / 4 == if y % 4 == 0 then 1 else 0
  {
    var q, r := y / 4, y % 4;
    assert y == 4 * q + r;
    assert y - 1968 == 4 * (q - 492) + r;
    if r == 0 {
      assert y - 1969 == 4 * (q - 493) + 3;
    } else {
      assert y - 1969 == 4 * (q - 492) + (r - 1);
    }
  }

  lemma Step100(y: int)
    ensures (y - 1900) / 100 - (y - 1901) / 100 == if y % 100 == 0 then 1 else 0
  {
    var q, r := y / 100, y % 100;
    assert y == 100 * q + r;
    assert y - 1900 == 100 * (q - 19) + r;
    if r == 0 {
      assert y - 1901 == 100 * (q - 20) + 99;
    } else {
      assert y - 1901 == 100 * (q - 19) + (r - 1);
    }
  }

  lemma Step400(y: int)
    ensures (y - 1600) / 400 - (y - 1601) / 400 == if y % 400 == 0 then 1 else 0
  {
    var q, r := y / 400, y % 400;
    assert y == 400 * q + r;
    assert y - 1600 == 400 * (q - 4) + r;
    if r == 0 {
      assert y - 1601 == 400 * (q - 5) + 399;
    } else {
      assert y - 1601 == 400 * (q - 4) + (r - 1);
    }
  }

  /** Consecutive years begin exactly a year's length apart. */
  lemma YearLength(y: int)
    ensures DayFromYear(y + 1) - DayFromYear(y) == DaysInYear(y)
  {
    Step4(y);
    Step100(y);
    Step400(y);
    if y % 400 == 0 {
      CenturyOfMultiple(y);
    } else if y % 100 == 0 {
      LeapOfCentury(y);
    }
  }

  lemma CenturyOfMultiple(y: int)
    requires y % 400 == 0
    ensures y % 100 == 0 && y % 4 == 0
  {
    var q := y / 400;
    assert y == 100 * (4 * q);
    assert y == 4 * (100 * q);
  }

  lemma LeapOfCentury(y: int)
    requires y % 100 == 0
    ensures y % 4 == 0
  {
    var q := y / 100;
    assert y == 4 * (25 * q);
  }

  /** The twelve months make up the year. */
  lemma MonthsFillYear(y: int)
    ensures DaysBeforeMonth(y, 12) == DaysInYear(y)
  {
    var leap := if InLeapYear(y) then 1 else 0;
    assert DaysBeforeMonth(y, 1) == 31;
    assert DaysBeforeMonth(y, 2) == 59 + leap;
    assert DaysBeforeMonth(y, 3) == 90 + leap;
    assert DaysBeforeMonth(y, 4) == 120 + leap;
    assert DaysBeforeMonth(y, 5) == 151 + leap;
    assert DaysBeforeMonth(y, 6) == 181 + leap;
    assert DaysBeforeMonth(y, 7) == 212 + leap;
    assert DaysBeforeMonth(y, 8) == 243 + leap;
    assert DaysBeforeMonth(y, 9) == 273 + leap;
    assert DaysBeforeMonth(y, 10) == 304 + leap;
    assert DaysBeforeMonth(y, 11) == 334 + leap;
  }

  /** The first day of month `m + 1` follows the last day of month `m`, also from December to January. */
  lemma MonthLength(y: int, m: int)
    requires 0 <= m < 12
    ensures MakeDay(y, m + 1, 1) - MakeDay(y, m, 1) == DaysInMonth(y, m)
  {
    assert m / 12 == 0 && m % 12 == m;
    if m == 11 {
      YearLength(y);
      MonthsFillYear(y);
      assert MakeDay(y, 12, 1) == DayFromYear(y + 1);
    } else {
      assert (m + 1) / 12 == 0 && (m + 1) % 12 == m + 1;
    }
  }

  /** What `new Date()` reports: the instant and its local calendar fields (`getFullYear`, `getMonth`, `getDate`). */
  datatype Clock = Clock(now: int, year: int, month: int, date: int)

  /** The calendar fields name the local day of the instant. */
  ghost predicate Consistent(c: Clock)
  {
    && 0 <= c.month < 12
    && 1 <= c.date <= DaysInMonth(c.year, c.month)
    && DayOf(c.now) == MakeDay(c.year, c.month, c.date)
  }
}
