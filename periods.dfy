/** The period calculator of `GenerateReport`: a report choice and the
    instant `now` give the inclusive range [start, end] of instants whose
    sales and cash deliveries the report covers. */
module Periods {
  import opened Wrappers
  import opened Calendar

  datatype ReportKind = Daily | Weekly | Monthly

  /** An inclusive range of instants. */
  datatype Period = Period(start: int, end: int)

  /** Menu choice 1, 2 or 3; anything else selects no report. */
  function KindOfChoice(choice: int): (k: Option<ReportKind>)
    ensures k == Some(Daily) <==> choice == 1
    ensures k == Some(Weekly) <==> choice == 2
    ensures k == Some(Monthly) <==> choice == 3
    ensures k.None? <==> choice != 1 && choice != 2 && choice != 3
  {
    if choice == 1 then Some(Daily)
    else if choice == 2 then Some(Weekly)
    else if choice == 3 then Some(Monthly)
    else None
  }

  /** The heading of the report, naming its period. */
  function Title(kind: ReportKind): (t: string)
    ensures |t| > 18 && t[..18] == "Reporte de Ventas "
  {
    match kind
    case Daily => "Reporte de Ventas Diario"
    case Weekly => "Reporte de Ventas Semanal"
    case Monthly => "Reporte de Ventas Mensual"
  }

  /** Each kind of report has a title of its own. */
  lemma TitlesDistinct(k1: ReportKind, k2: ReportKind)
    requires k1 != k2
    ensures Title(k1) != Title(k2)
  {
    var t1, t2 := Title(k1), Title(k2);
    if |t1| == |t2| {
      assert t1[18] != t2[18];
    }
  }

  /** Day number of an instant. */
  function DayOf(t: int): int {
    t / SecondsPerDay
  }

  /** `t.Truncate(24 * time.Hour)`: midnight UTC at or before `t`. */
  function Truncate(t: int): (r: int)
    ensures r % SecondsPerDay == 0
    ensures r <= t < r + SecondsPerDay
    ensures r / SecondsPerDay == DayOf(t)
  {
    t - t % SecondsPerDay
  }

  /** Case 1: from midnight of today to one second before the next midnight. */
  function DailyPeriod(now: int): (p: Period)
    ensures p.start % SecondsPerDay == 0
    ensures p.start / SecondsPerDay == DayOf(now)
    ensures p.start <= now <= p.end
    ensures p.end - p.start == 24 * 3600 - 1
    ensures (p.end + 1) % SecondsPerDay == 0
  {
    var start := Truncate(now);
    Period(start, start + (24 * 3600 - 1))
  }

  /** Case 2: step back `weekday` days to Sunday, truncate to midnight, and
      run seven days less one second. */
  function WeeklyPeriod(now: int): (p: Period)
    ensures p.start % SecondsPerDay == 0
    ensures Weekday(p.start / SecondsPerDay) == 0
    ensures p.start <= now <= p.end
    ensures p.end - p.start == DaysPerWeek * SecondsPerDay - 1
    ensures (p.end + 1) % SecondsPerDay == 0
  {
    var weekday := Weekday(DayOf(now));
    var start := Truncate(now - weekday * SecondsPerDay);
    assert start == (DayOf(now) - weekday) * SecondsPerDay;
    Period(start, start + DaysPerWeek * SecondsPerDay - 1)
  }

  /** Case 3: from the first of this month at midnight to one second before
      the first of the next month. */
  function MonthlyPeriod(now: int): (p: Period)
    ensures p.start % SecondsPerDay == 0 && (p.end + 1) % SecondsPerDay == 0
    ensures p.start <= now <= p.end
  {
    var c := CivilFromDays(DayOf(now));
    var first := Date(c.year, c.month, 1);
    var next := NextMonthFirst(c.year, c.month);
    MonthDays(c);
    NextMonthStart(c.year, c.month);
    DayRange(now, DaysFromCivil(first), DaysFromCivil(next));
    Period(StartOfDate(first), StartOfDate(next) - 1)
  }

  /** The monthly period starts on day 1 of the month of `now` at 00:00:00
      and ends on the month's last day at 23:59:59. */
  lemma MonthlyPeriodIsMonth(now: int)
    ensures var c := CivilFromDays(DayOf(now));
            var p := MonthlyPeriod(now);
            && CivilFromDays(p.start / SecondsPerDay) == Date(c.year, c.month, 1)
            && CivilFromDays(p.end / SecondsPerDay) == Date(c.year, c.month, DaysInMonth(c.year, c.month))
            && p.end % SecondsPerDay == SecondsPerDay - 1
  {
    var c := CivilFromDays(DayOf(now));
    var first := Date(c.year, c.month, 1);
    var next := NextMonthFirst(c.year, c.month);
    var last := Date(c.year, c.month, DaysInMonth(c.year, c.month));
    MonthDays(c);
    NextMonthStart(c.year, c.month);
    CivilRoundTrip(first);
    CivilRoundTrip(last);
    DayRange(now, DaysFromCivil(first), DaysFromCivil(next));
    assert (StartOfDate(next) - 1) / SecondsPerDay == DaysFromCivil(last);
  }

  /** The monthly period lasts as many days as the month has, and the instant
      after it is day 1 of the next month (January of the next year after
      December). */
  lemma MonthlyPeriodLength(now: int)
    ensures var c := CivilFromDays(DayOf(now));
            var p := MonthlyPeriod(now);
            && p.end + 1 - p.start == DaysInMonth(c.year, c.month) * SecondsPerDay
            && CivilFromDays((p.end + 1) / SecondsPerDay)
               == (if c.month == 12 then Date(c.year + 1, 1, 1) else Date(c.year, c.month + 1, 1))
  {
    var c := CivilFromDays(DayOf(now));
    var first := Date(c.year, c.month, 1);
    var next := NextMonthFirst(c.year, c.month);
    MonthDays(c);
    NextMonthStart(c.year, c.month);
    CivilRoundTrip(next);
    DayRange(now, DaysFromCivil(first), DaysFromCivil(next));
  }

  /** Day numbers of the first, the last and any day of one month. */
  lemma MonthDays(d: Date)
    requires ValidDate(d)
    ensures DaysFromCivil(Date(d.year, d.month, 1)) <= DaysFromCivil(d)
    ensures DaysFromCivil(d) < DaysFromCivil(Date(d.year, d.month, 1)) + DaysInMonth(d.year, d.month)
    ensures DaysFromCivil(Date(d.year, d.month, DaysInMonth(d.year, d.month)))
            == DaysFromCivil(Date(d.year, d.month, 1)) + DaysInMonth(d.year, d.month) - 1
  {
  }

  /** An instant on day `DayOf(t)` between days `a` and `b`. */
  lemma DayRange(t: int, a: int, b: int)
    requires a <= DayOf(t) < b
    ensures a * SecondsPerDay <= t <= b * SecondsPerDay - 1
    ensures (b * SecondsPerDay - 1) / SecondsPerDay == b - 1
    ensures (b * SecondsPerDay - 1) % SecondsPerDay == SecondsPerDay - 1
    ensures (b * SecondsPerDay) / SecondsPerDay == b && (a * SecondsPerDay) / SecondsPerDay == a
    ensures b * SecondsPerDay - a * SecondsPerDay == (b - a) * SecondsPerDay
  {
  }

  /** `[start, end]` for a report kind. */
  function ComputePeriod(kind: ReportKind, now: int): (p: Period)
    ensures p.start % SecondsPerDay == 0 && (p.end + 1) % SecondsPerDay == 0
    ensures p.start <= now <= p.end
  {
    match kind
    case Daily => DailyPeriod(now)
    case Weekly => WeeklyPeriod(now)
    case Monthly => MonthlyPeriod(now)
  }

  /** The switch of `GenerateReport`: an invalid choice yields no period. */
  function PeriodOfChoice(choice: int, now: int): (p: Option<Period>)
    ensures p.None? <==> choice != 1 && choice != 2 && choice != 3
    ensures p.Some? ==> p.value.start <= now <= p.value.end
  {
    match KindOfChoice(choice)
    case None => None
    case Some(kind) => Some(ComputePeriod(kind, now))
  }

  /** The instant `secs` seconds into the civil day `d`. */
  function InstantOf(d: Date, secs: int): int
    requires 1 <= d.month <= 12
  {
    StartOfDate(d) + secs
  }

  /** Any instant of a day gives the daily period of that whole day. */
  lemma DailyPeriodOfDate(d: Date, secs: int)
    requires ValidDate(d) && 0 <= secs < SecondsPerDay
    ensures ComputePeriod(Daily, InstantOf(d, secs)) == Period(StartOfDate(d), InstantOf(d, SecondsPerDay - 1))
  {
    assert DayOf(InstantOf(d, secs)) == DaysFromCivil(d);
  }

  /** Any instant of a month gives the monthly period from the first of that
      month at 00:00:00 to its last day at 23:59:59. */
  lemma MonthlyPeriodOfDate(d: Date, secs: int)
    requires ValidDate(d) && 0 <= secs < SecondsPerDay
    ensures ComputePeriod(Monthly, InstantOf(d, secs))
            == Period(StartOfDate(Date(d.year, d.month, 1)),
                      InstantOf(Date(d.year, d.month, DaysInMonth(d.year, d.month)), SecondsPerDay - 1))
  {
    var now := InstantOf(d, secs);
    assert DayOf(now) == DaysFromCivil(d);
    CivilRoundTrip(d);
    NextMonthStart(d.year, d.month);
  }

  /** Friday 2024-03-15 lies in the week from Sunday 2024-03-10 00:00:00 to
      Saturday 2024-03-16 23:59:59. */
  lemma WeeklyExample(secs: int)
    requires 0 <= secs < SecondsPerDay
    ensures Weekday(DaysFromCivil(Date(2024, 3, 15))) == 5
    ensures ComputePeriod(Weekly, InstantOf(Date(2024, 3, 15), secs))
            == Period(StartOfDate(Date(2024, 3, 10)), InstantOf(Date(2024, 3, 16), SecondsPerDay - 1))
  {
    assert DaysFromCivil(Date(2024, 3, 15)) == 19797;
    assert DayOf(InstantOf(Date(2024, 3, 15), secs)) == 19797;
  }

  /** February 2024 is a leap month: the monthly period ends on 2024-02-29
      at 23:59:59. */
  lemma LeapFebruaryExample()
    ensures ComputePeriod(Monthly, InstantOf(Date(2024, 2, 10), 0))
            == Period(StartOfDate(Date(2024, 2, 1)), InstantOf(Date(2024, 2, 29), SecondsPerDay - 1))
  {
    assert DaysInMonth(2024, 2) == 29;
    MonthlyPeriodOfDate(Date(2024, 2, 10), 0);
  }

  /** Months of 28, 30 and 31 days end on their 28th, 30th and 31st. */
  lemma MonthLengthExamples()
    ensures ComputePeriod(Monthly, InstantOf(Date(2023, 2, 10), 0)).end == InstantOf(Date(2023, 2, 28), SecondsPerDay - 1)
    ensures ComputePeriod(Monthly, InstantOf(Date(2024, 4, 30), 0)).end == InstantOf(Date(2024, 4, 30), SecondsPerDay - 1)
    ensures ComputePeriod(Monthly, InstantOf(Date(2024, 12, 1), 0)).end == InstantOf(Date(2024, 12, 31), SecondsPerDay - 1)
  {
    assert DaysInMonth(2023, 2) == 28;
    MonthlyPeriodOfDate(Date(2023, 2, 10), 0);
    assert DaysInMonth(2024, 4) == 30;
    MonthlyPeriodOfDate(Date(2024, 4, 30), 0);
    assert DaysInMonth(2024, 12) == 31;
    MonthlyPeriodOfDate(Date(2024, 12, 1), 0);
  }
}
