/** Calendar arithmetic on proleptic Gregorian civil dates, the part of
    JavaScript's `Date` that the calendar grid and the booking times rely on:
    day-of-month overflow in `setDate`, month overflow in `new Date(y, m)`,
    `getDay`, and the UTC date of a local midnight (`toISOString().split('T')[0]`). */
module CivilDate {
  import opened Text

  const MsPerDay: int := 86400000
  const MsPerMinute: int := 60000
  const MinutesPerDay: int := 1440

  /** A calendar date; `month` counts from 0 (January) as `getMonth` does. */
  datatype Date = Date(year: int, month: int, day: int)
  {
    predicate Valid()
    {
      0 <= month < 12 && 1 <= day <= DaysInMonth(year, month)
    }
  }

  predicate IsLeapYear(y: int)
  {
    y % 4 == 0 && (y % 100 != 0 || y % 400 == 0)
  }

  function DaysInMonth(y: int, m: int): (n: int)
    requires 0 <= m < 12
    ensures 28 <= n <= 31
  {
    if m == 1 then (if IsLeapYear(y) then 29 else 28)
    else if m == 3 || m == 5 || m == 8 || m == 10 then 30
    else 31
  }

  function DaysInYear(y: int): int
  {
    if IsLeapYear(y) then 366 else 365
  }

  /** Days of year `y` before the first of month `m`. */
  function DaysBeforeMonth(y: int, m: int): int
    requires 0 <= m < 12
  {
    [0, 31, 59, 90, 120, 151, 181, 212, 243, 273, 304, 334][m] + (if m >= 2 && IsLeapYear(y) then 1 else 0)
  }

  /** Leap years among those before `y`, counted from a fixed origin. */
  function LeapsBefore(y: int): int
  {
    (y - 1) / 4 - (y - 1) / 100 + (y - 1) / 400
  }

  /** Day number of 1 January of year `y`, 1970-01-01 being day 0. */
  function YearStart(y: int): int
  {
    365 * (y - 1970) + LeapsBefore(y) - LeapsBefore(1970)
  }

  /** Days since 1970-01-01 (negative before it). */
  function DayNumber(d: Date): int
    requires d.Valid()
  {
    YearStart(d.year) + DaysBeforeMonth(d.year, d.month) + d.day - 1
  }

  /** `getDay`: 0 is Sunday; 1970-01-01 was a Thursday. */
  function Weekday(d: Date): (w: int)
    requires d.Valid()
    ensures 0 <= w < 7
  {
    (DayNumber(d) + 4) % 7
  }

  lemma DivStep(y: int, k: int)
    requires k == 4 || k == 100 || k == 400
    ensures y / k - (y - 1) / k == if y % k == 0 then 1 else 0
  {
    if k == 4 {
    } else if k == 100 {
    } else {
    }
  }

  lemma MultipleOf(y: int, t: int, k: int)
    requires k == 4 || k == 100
    requires y == k * t
    ensures y % k == 0
  {
    if k == 4 {
    } else {
    }
  }

  /** Each year is 365 days long, 366 when it is a leap year. */
  lemma YearStartStep(y: int)
    ensures YearStart(y + 1) == YearStart(y) + DaysInYear(y)
  {
    DivStep(y, 4);
    DivStep(y, 100);
    DivStep(y, 400);
    if y % 400 == 0 {
      MultipleOf(y, 4 * (y / 400), 100);
    }
    if y % 100 == 0 {
      MultipleOf(y, 25 * (y / 100), 4);
    }
  }

  /** Later years start later, by at least 365 days a year. */
  lemma {:induction false} YearStartGrows(a: int, b: int)
    requires a <= b
    ensures YearStart(a) + 365 * (b - a) <= YearStart(b)
    decreases b - a
  {
    if a < b {
      YearStartGrows(a, b - 1);
      YearStartStep(b - 1);
    }
  }

  lemma MonthTable(y: int, m: int)
    requires 0 <= m < 12
    ensures m < 11 ==> DaysBeforeMonth(y, m + 1) == DaysBeforeMonth(y, m) + DaysInMonth(y, m)
    ensures m == 11 ==> DaysBeforeMonth(y, m) + DaysInMonth(y, m) == DaysInYear(y)
  {
  }

  lemma {:induction false} MonthsGrow(y: int, m: int, m': int)
    requires 0 <= m < m' < 12
    ensures DaysBeforeMonth(y, m) + DaysInMonth(y, m) <= DaysBeforeMonth(y, m')
    decreases m' - m
  {
    MonthTable(y, m);
    if m + 1 < m' {
      MonthsGrow(y, m + 1, m');
    }
  }

  /** A valid date lies within its year. */
  lemma WithinYear(d: Date)
    requires d.Valid()
    ensures YearStart(d.year) <= DayNumber(d) < YearStart(d.year + 1)
  {
    YearStartStep(d.year);
    if d.month < 11 {
      MonthsGrow(d.year, d.month, 11);
    }
    MonthTable(d.year, 11);
  }

  /** Lexicographic order on (year, month, day). */
  predicate Before(a: Date, b: Date)
  {
    a.year < b.year || (a.year == b.year && (a.month < b.month || (a.month == b.month && a.day < b.day)))
  }

  /** Day numbers follow the calendar order. */
  lemma DayNumberOrder(a: Date, b: Date)
    requires a.Valid() && b.Valid() && Before(a, b)
    ensures DayNumber(a) < DayNumber(b)
  {
    if a.year < b.year {
      WithinYear(a);
      WithinYear(b);
      YearStartGrows(a.year + 1, b.year);
    } else if a.month < b.month {
      MonthsGrow(a.year, a.month, b.month);
    }
  }

  /** Distinct valid dates have distinct day numbers. */
  lemma DayNumberInjective(a: Date, b: Date)
    requires a.Valid() && b.Valid() && DayNumber(a) == DayNumber(b)
    ensures a == b
  {
    if Before(a, b) {
      DayNumberOrder(a, b);
    } else if Before(b, a) {
      DayNumberOrder(b, a);
    }
  }

  /** The day after `d`, rolling over month and year ends. */
  function NextDay(d: Date): (r: Date)
    requires d.Valid()
    ensures r.Valid() && DayNumber(r) == DayNumber(d) + 1
  {
    MonthTable(d.year, d.month);
    YearStartStep(d.year);
    if d.day < DaysInMonth(d.year, d.month) then Date(d.year, d.month, d.day + 1)
    else if d.month < 11 then Date(d.year, d.month + 1, 1)
    else Date(d.year + 1, 0, 1)
  }

  /** The day before `d`, rolling back over month and year starts. */
  function PrevDay(d: Date): (r: Date)
    requires d.Valid()
    ensures r.Valid() && DayNumber(r) == DayNumber(d) - 1
  {
    if d.day > 1 then Date(d.year, d.month, d.day - 1)
    else if d.month > 0 then
      MonthTable(d.year, d.month - 1);
      Date(d.year, d.month - 1, DaysInMonth(d.year, d.month - 1))
    else
      MonthTable(d.year - 1, 11);
      YearStartStep(d.year - 1);
      Date(d.year - 1, 11, 31)
  }

  /** `n` days after `d`. */
  function AddDays(d: Date, n: nat): (r: Date)
    requires d.Valid()
    ensures r.Valid() && DayNumber(r) == DayNumber(d) + n
  {
    if n == 0 then d else NextDay(AddDays(d, n - 1))
  }

  /** `n` days before `d`. */
  function SubDays(d: Date, n: nat): (r: Date)
    requires d.Valid()
    ensures r.Valid() && DayNumber(r) == DayNumber(d) - n
  {
    if n == 0 then d else PrevDay(SubDays(d, n - 1))
  }

  /** `Date.prototype.setDate(n)`: day `n` of `d`'s month, where a day before
      the first or after the last overflows into the neighbouring months. */
  function SetDate(d: Date, n: int): (r: Date)
    requires d.Valid()
    ensures r.Valid() && DayNumber(r) == DayNumber(Date(d.year, d.month, 1)) + n - 1
  {
    var first := Date(d.year, d.month, 1);
    if n >= 1 then AddDays(first, n - 1) else SubDays(first, 1 - n)
  }

  /** A date is `day - 1` days after the 1st of its month. */
  lemma DayInMonth(d: Date)
    requires d.Valid()
    ensures DayNumber(d) == DayNumber(Date(d.year, d.month, 1)) + d.day - 1
  {
  }

  /** `new Date(y, m)`: the first day of month `m` of year `y`, where a month
      outside 0..11 is carried into the year. */
  function MonthStart(y: int, m: int): (r: Date)
    ensures r.Valid() && r.day == 1
    ensures r.year * 12 + r.month == y * 12 + m
  {
    Date(y + m / 12, m % 12, 1)
  }

  /** The UTC date on which local midnight of `d` falls, for a fixed offset of
      `offset` minutes east of UTC (less than a day either way). */
  function UtcDateOfLocalMidnight(d: Date, offset: int): (r: Date)
    requires d.Valid() && -MinutesPerDay < offset < MinutesPerDay
    ensures r.Valid()
    ensures DayNumber(r) * MsPerDay <= DayNumber(d) * MsPerDay - offset * MsPerMinute < (DayNumber(r) + 1) * MsPerDay
  {
    if offset > 0 then PrevDay(d) else d
  }

  /** The year as `toISOString` writes it: four digits for years 0 to 9999,
      otherwise a sign and six digits. */
  function IsoYear(y: int): string
  {
    if 0 <= y <= 9999 then Pad(y, 4)
    else (if y < 0 then "-" else "+") + Pad(if y < 0 then -y else y, 6)
  }

  /** The date part of `toISOString()` for an instant on UTC date `d`: YYYY-MM-DD with a 1-based month. */
  function DayKey(d: Date): string
    requires d.Valid()
  {
    IsoYear(d.year) + "-" + Pad(d.month + 1, 2) + "-" + Pad(d.day, 2)
  }
}
