/** Proleptic Gregorian calendar arithmetic on day numbers counted from
    1970-01-01 (day 0), in a single zone (UTC).  Instants are whole seconds
    since 1970-01-01 00:00:00. */
module Calendar {

  const SecondsPerDay: int := 86400
  const DaysPerWeek: int := 7

  /** A civil date as `time.Parse("02/01/2006", ...)` produces it. */
  datatype Date = Date(year: int, month: int, day: int)

  predicate IsLeapYear(y: int) {
    y % 4 == 0 && (y % 100 != 0 || y % 400 == 0)
  }

  function YearLength(y: int): int {
    if IsLeapYear(y) then 366 else 365
  }

  function DaysInMonth(y: int, m: int): (n: int)
    requires 1 <= m <= 12
    ensures 28 <= n <= 31
    ensures n == 29 <==> m == 2 && IsLeapYear(y)
    ensures n == 28 <==> m == 2 && !IsLeapYear(y)
    ensures n == 30 <==> m in {4, 6, 9, 11}
  {
    if m == 2 then (if IsLeapYear(y) then 29 else 28)
    else if m == 4 || m == 6 || m == 9 || m == 11 then 30
    else 31
  }

  ghost predicate ValidDate(d: Date) {
    1 <= d.month <= 12 && 1 <= d.day <= DaysInMonth(d.year, d.month)
  }

  /** Number of leap years among 1 .. y-1 of the proleptic calendar. */
  function LeapYearsBefore(y: int): int {
    (y - 1) / 4 - (y - 1) / 100 + (y - 1) / 400
  }

  /** Day number of 1 January of year `y`. */
  function YearStart(y: int): int {
    365 * (y - 1970) + LeapYearsBefore(y) - LeapYearsBefore(1970)
  }

  /** Days of year `y` that precede the first of month `m` (13 = the next year). */
  function DaysBeforeMonth(y: int, m: int): int
    requires 1 <= m <= 13
  {
    (if m == 1 then 0 else if m == 2 then 31 else if m == 3 then 59
     else if m == 4 then 90 else if m == 5 then 120 else if m == 6 then 151
     else if m == 7 then 181 else if m == 8 then 212 else if m == 9 then 243
     else if m == 10 then 273 else if m == 11 then 304 else if m == 12 then 334
     else 365)
    + (if m > 2 && IsLeapYear(y) then 1 else 0)
  }

  /** Day number of a civil date. */
  function DaysFromCivil(d: Date): int
    requires 1 <= d.month <= 12
  {
    YearStart(d.year) + DaysBeforeMonth(d.year, d.month) + d.day - 1
  }

  /** The instant 00:00:00 of a civil date. */
  function StartOfDate(d: Date): (t: int)
    requires 1 <= d.month <= 12
    ensures t % SecondsPerDay == 0 && t / SecondsPerDay == DaysFromCivil(d)
  {
    DaysFromCivil(d) * SecondsPerDay
  }

  /** Day of the week of a day number, Sunday = 0; day 0 was a Thursday. */
  function Weekday(n: int): (w: int)
    ensures 0 <= w < DaysPerWeek
  {
    (n + 4) % DaysPerWeek
  }

  lemma YearStep(y: int)
    ensures YearStart(y + 1) == YearStart(y) + YearLength(y)
  {
    DivStep(y);
  }

  lemma DivStep(y: int)
    ensures y / 4 - (y - 1) / 4 == (if y % 4 == 0 then 1 else 0)
    ensures y / 100 - (y - 1) / 100 == (if y % 100 == 0 then 1 else 0)
    ensures y / 400 - (y - 1) / 400 == (if y % 400 == 0 then 1 else 0)
  {
  }

  lemma MonthStep(y: int, m: int)
    requires 1 <= m <= 12
    ensures DaysBeforeMonth(y, m + 1) == DaysBeforeMonth(y, m) + DaysInMonth(y, m)
  {
  }

  /** Years only grow: every day of year `y1` lies before 1 January of a later year. */
  lemma {:induction false} YearStartMonotone(y1: int, y2: int)
    requires y1 < y2
    ensures YearStart(y1) + YearLength(y1) <= YearStart(y2)
    decreases y2 - y1
  {
    YearStep(y1);
    if y1 + 1 < y2 {
      YearStartMonotone(y1 + 1, y2);
    }
  }

  lemma {:induction false} MonthMonotone(y: int, m1: int, m2: int)
    requires 1 <= m1 < m2 <= 13
    ensures DaysBeforeMonth(y, m1) + DaysInMonth(y, m1) <= DaysBeforeMonth(y, m2)
  {
    MonthStep(y, m1);
  }

  /** Walks year by year from `y` until the day offset `r`, counted from
      1 January of `y`, falls inside the year; returns that year and offset. */
  function FindYear(y: int, r: int): (res: (int, int))
    ensures 0 <= res.1 < YearLength(res.0)
    ensures YearStart(res.0) + res.1 == YearStart(y) + r
    decreases if r < 0 then 1 else 0, if r < 0 then -r else r
  {
    if r < 0 then
      YearStep(y - 1);
      FindYear(y - 1, r + YearLength(y - 1))
    else if r >= YearLength(y) then
      YearStep(y);
      FindYear(y + 1, r - YearLength(y))
    else
      (y, r)
  }

  /** Walks month by month from `m` until the day offset `r`, counted from
      the first of month `m`, falls inside the month. */
  function FindMonth(y: int, m: int, r: int): (res: (int, int))
    requires 1 <= m <= 12 && 0 <= r
    requires DaysBeforeMonth(y, m) + r < YearLength(y)
    ensures 1 <= res.0 <= 12
    ensures 0 <= res.1 < DaysInMonth(y, res.0)
    ensures DaysBeforeMonth(y, res.0) + res.1 == DaysBeforeMonth(y, m) + r
    decreases 12 - m
  {
    MonthStep(y, m);
    if r < DaysInMonth(y, m) then (m, r)
    else FindMonth(y, m + 1, r - DaysInMonth(y, m))
  }

  /** Civil date of a day number. */
  function CivilFromDays(n: int): (d: Date)
    ensures ValidDate(d)
    ensures DaysFromCivil(d) == n
  {
    var (y, r) := FindYear(1970, n);
    var (m, r') := FindMonth(y, 1, r);
    Date(y, m, r' + 1)
  }

  /** Two valid dates with the same day number are the same date. */
  lemma DaysFromCivilInjective(d1: Date, d2: Date)
    requires ValidDate(d1) && ValidDate(d2)
    requires DaysFromCivil(d1) == DaysFromCivil(d2)
    ensures d1 == d2
  {
    MonthMonotone(d1.year, d1.month, 13);
    MonthMonotone(d2.year, d2.month, 13);
    if d1.year < d2.year {
      YearStartMonotone(d1.year, d2.year);
    } else if d2.year < d1.year {
      YearStartMonotone(d2.year, d1.year);
    } else if d1.month < d2.month {
      MonthMonotone(d1.year, d1.month, d2.month);
    } else if d2.month < d1.month {
      MonthMonotone(d1.year, d2.month, d1.month);
    }
  }

  /** A valid date survives the trip through its day number. */
  lemma CivilRoundTrip(d: Date)
    requires ValidDate(d)
    ensures CivilFromDays(DaysFromCivil(d)) == d
  {
    DaysFromCivilInjective(CivilFromDays(DaysFromCivil(d)), d);
  }

  /** First of the month after (y, m), as `AddDate(0, 1, 0)` normalises
      month 13 to January of the next year. */
  function NextMonthFirst(y: int, m: int): Date {
    if m == 12 then Date(y + 1, 1, 1) else Date(y, m + 1, 1)
  }

  /** The day after the last day of a month is the first of the next month. */
  lemma NextMonthStart(y: int, m: int)
    requires 1 <= m <= 12
    ensures 1 <= NextMonthFirst(y, m).month <= 12
    ensures DaysFromCivil(NextMonthFirst(y, m)) == DaysFromCivil(Date(y, m, 1)) + DaysInMonth(y, m)
  {
    MonthStep(y, m);
    if m == 12 {
      YearStep(y);
    }
  }
}
