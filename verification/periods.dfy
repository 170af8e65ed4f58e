/** Relative report periods resolved against a date (backend/app/reports/periods.py). */
module Periods {
  import opened Common
  import opened Calendar

  const MAX_PERIOD_DAYS: int := 366 * 5
  const MAX_RELATIVE_DAYS: int := 366 * 5
  const MIN_YEAR: int := 1
  const MAX_YEAR: int := 9999

  datatype RelativePeriod =
    | Fixed(start: CalendarDate, end: CalendarDate)
    | LastNDays(days: int)
    | CurrentMonth | PreviousMonth
    | CurrentQuarter | PreviousQuarter
    | CurrentYear | PreviousYear

  /** What the declaration of a relative period already enforces. */
  predicate WellShaped(period: RelativePeriod)
  {
    && (period.Fixed? ==> Ordinal(period.start) < Ordinal(period.end))
    && (period.LastNDays? ==> 1 <= period.days <= MAX_RELATIVE_DAYS)
  }

  /** A half-open range of dates. */
  datatype ReportPeriod = ReportPeriod(start: CalendarDate, end: CalendarDate)

  datatype PeriodError = DateOutOfRange | EndNotAfterStart | TooLong

  predicate InRange(d: Date)
  {
    MIN_YEAR <= d.year <= MAX_YEAR
  }

  function QuarterStart(year: int, month: int): CalendarDate
    requires 1 <= month <= 12
  {
    Date(year, ((month - 1) / 3) * 3 + 1, 1)
  }

  /** The two boundaries each kind of period names, before any range check. */
  function Window(period: RelativePeriod, today: CalendarDate): ReportPeriod
  {
    match period
    case Fixed(start, end) => ReportPeriod(start, end)
    case LastNDays(days) => ReportPeriod(AddDays(today, -days), today)
    case CurrentMonth =>
      var start := Date(today.year, today.month, 1);
      ReportPeriod(start, AddMonths(start, 1))
    case PreviousMonth =>
      var end := Date(today.year, today.month, 1);
      ReportPeriod(AddMonths(end, -1), end)
    case CurrentQuarter =>
      var start := QuarterStart(today.year, today.month);
      ReportPeriod(start, AddMonths(start, 3))
    case PreviousQuarter =>
      var currentStart := QuarterStart(today.year, today.month);
      ReportPeriod(AddMonths(currentStart, -3), currentStart)
    case CurrentYear => ReportPeriod(Date(today.year, 1, 1), Date(today.year + 1, 1, 1))
    case PreviousYear => ReportPeriod(Date(today.year - 1, 1, 1), Date(today.year, 1, 1))
  }

  /** A boundary outside Python's years raises, and so does a range the period type refuses. */
  function Resolve(period: RelativePeriod, today: CalendarDate): Result<ReportPeriod, PeriodError>
  {
    var window := Window(period, today);
    if !InRange(window.start) || !InRange(window.end) then Raised(DateOutOfRange)
    else if Ordinal(window.end) <= Ordinal(window.start) then Raised(EndNotAfterStart)
    else if Ordinal(window.end) - Ordinal(window.start) > MAX_PERIOD_DAYS then Raised(TooLong)
    else Ok(window)
  }

  predicate Contains(window: ReportPeriod, d: CalendarDate)
  {
    Ordinal(window.start) <= Ordinal(d) < Ordinal(window.end)
  }

  // ---- the calendar units ----

  datatype Unit = Month | Quarter | Year

  function Current(unit: Unit): RelativePeriod
  {
    match unit case Month => CurrentMonth case Quarter => CurrentQuarter case Year => CurrentYear
  }

  function Previous(unit: Unit): RelativePeriod
  {
    match unit case Month => PreviousMonth case Quarter => PreviousQuarter case Year => PreviousYear
  }

  /** Which month, quarter or year a date is in, counted from the beginning. */
  function UnitNumber(unit: Unit, d: Date): int
  {
    match unit case Month => MonthIndex(d) case Quarter => MonthIndex(d) / 3 case Year => d.year
  }

  /** The window of the n-th unit: whole months, from the first of one to the first of another. */
  function UnitWindow(unit: Unit, n: int): ReportPeriod
  {
    match unit
    case Month => ReportPeriod(FirstOfMonth(n), FirstOfMonth(n + 1))
    case Quarter => ReportPeriod(FirstOfMonth(3 * n), FirstOfMonth(3 * n + 3))
    case Year => ReportPeriod(FirstOfMonth(12 * n), FirstOfMonth(12 * n + 12))
  }

  /** The three pairs of rules all name whole units: the one today is in, and the one before. */
  lemma WindowsAreUnits(unit: Unit, today: CalendarDate)
    ensures Window(Current(unit), today) == UnitWindow(unit, UnitNumber(unit, today))
    ensures Window(Previous(unit), today) == UnitWindow(unit, UnitNumber(unit, today) - 1)
  {
    match unit
    case Month => MonthWindowsAreUnits(today);
    case Quarter => QuarterWindowsAreUnits(today);
    case Year =>
  }

  lemma MonthWindowsAreUnits(today: CalendarDate)
    ensures Window(CurrentMonth, today) == UnitWindow(Month, MonthIndex(today))
    ensures Window(PreviousMonth, today) == UnitWindow(Month, MonthIndex(today) - 1)
  {
    var start := Date(today.year, today.month, 1);
    AddMonthsIsIndexed(start, 1);
    AddMonthsIsIndexed(start, -1);
    MonthIndexRoundTrip(start);
  }

  lemma QuarterWindowsAreUnits(today: CalendarDate)
    ensures Window(CurrentQuarter, today) == UnitWindow(Quarter, MonthIndex(today) / 3)
    ensures Window(PreviousQuarter, today) == UnitWindow(Quarter, MonthIndex(today) / 3 - 1)
  {
    var start := QuarterStart(today.year, today.month);
    AddMonthsIsIndexed(start, 3);
    AddMonthsIsIndexed(start, -3);
    MonthIndexRoundTrip(start);
    assert MonthIndex(start) == 3 * (MonthIndex(today) / 3);
  }

  lemma UnitContainsIff(unit: Unit, n: int, d: CalendarDate)
    ensures Contains(UnitWindow(unit, n), d) <==> UnitNumber(unit, d) == n
  {
    hide Ordinal, FirstOfMonth;
    match unit
    case Month => BeforeMonthIff(d, n); BeforeMonthIff(d, n + 1);
    case Quarter => BeforeMonthIff(d, 3 * n); BeforeMonthIff(d, 3 * n + 3);
    case Year => BeforeMonthIff(d, 12 * n); BeforeMonthIff(d, 12 * n + 12);
  }

  /**
   The windows tile the calendar: today lies in its own window, and a date lies in today's
   window exactly when both name the same one, so every date lies in exactly one.
   */
  lemma WindowsTile(unit: Unit, today: CalendarDate, d: CalendarDate)
    ensures Contains(Window(Current(unit), today), today)
    ensures Contains(Window(Current(unit), today), d) <==> Window(Current(unit), d) == Window(Current(unit), today)
  {
    WindowsAreUnits(unit, today);
    WindowsAreUnits(unit, d);
    UnitContainsIff(unit, UnitNumber(unit, today), today);
    UnitContainsIff(unit, UnitNumber(unit, today), d);
    UnitContainsIff(unit, UnitNumber(unit, d), d);
  }

  /** The previous window ends where the current one starts, and it is the current window of each of its days. */
  lemma PreviousMeetsCurrent(unit: Unit, today: CalendarDate, d: CalendarDate)
    ensures Window(Previous(unit), today).end == Window(Current(unit), today).start
    ensures Contains(Window(Previous(unit), today), d) <==> Window(Current(unit), d) == Window(Previous(unit), today)
    ensures !Contains(Window(Previous(unit), today), today)
  {
    WindowsAreUnits(unit, today);
    WindowsAreUnits(unit, d);
    UnitContainsIff(unit, UnitNumber(unit, today) - 1, d);
    UnitContainsIff(unit, UnitNumber(unit, d), d);
    UnitContainsIff(unit, UnitNumber(unit, today) - 1, today);
  }

  /** `last_n_days` holds exactly the n days before today. */
  lemma LastDaysExact(days: int, today: CalendarDate, d: CalendarDate)
    requires WellShaped(LastNDays(days))
    ensures var window := Window(LastNDays(days), today);
      && Ordinal(window.end) - Ordinal(window.start) == days
      && (Contains(window, d) <==> d in seq(days, k requires 0 <= k < days => AddDays(today, -(k + 1))))
  {
    hide Ordinal;
    var listed := seq(days, k requires 0 <= k < days => AddDays(today, -(k + 1)));
    if Contains(Window(LastNDays(days), today), d) {
      var k := Ordinal(today) - Ordinal(d);
      OrdinalOrder(d, AddDays(today, -k));
      assert listed[k - 1] == d;
    }
  }

  lemma UnitSpan(unit: Unit, n: int)
    ensures Ordinal(UnitWindow(unit, n).start) < Ordinal(UnitWindow(unit, n).end) <= Ordinal(UnitWindow(unit, n).start) + 372
  {
    hide Ordinal, FirstOfMonth;
    match unit
    case Month => MonthsSpan(n, 1);
    case Quarter => MonthsSpan(3 * n, 3);
    case Year => MonthsSpan(12 * n, 12);
  }

  lemma {:induction false} MonthsSpan(index: int, months: nat)
    requires months >= 1
    ensures Ordinal(FirstOfMonth(index)) < Ordinal(FirstOfMonth(index + months)) <= Ordinal(FirstOfMonth(index)) + 31 * months
    decreases months
  {
    hide Ordinal, FirstOfMonth;
    MonthLength(index + months - 1);
    if months > 1 {
      MonthsSpan(index, months - 1);
    }
  }

  /** What a caller can check beforehand: whether the period stays within Python's years and five years' length. */
  predicate Resolvable(period: RelativePeriod, today: CalendarDate)
  {
    match period
    case Fixed(start, end) =>
      1 <= start.year <= 9999 && 1 <= end.year <= 9999 && Ordinal(end) - Ordinal(start) <= 1830
    case LastNDays(days) => Ordinal(today) - days >= 1
    case CurrentMonth => today.year < 9999 || today.month < 12
    case CurrentQuarter => today.year < 9999 || today.month < 10
    case CurrentYear => today.year < 9999
    case PreviousMonth => today.year > 1 || today.month > 1
    case PreviousQuarter => today.year > 1 || today.month > 3
    case PreviousYear => today.year > 1
  }

  /**
   Exactly when each kind resolves: a current unit fails only in the last one of year 9999, a
   previous unit only in the first one of year 1, days only when they reach before year 1, and
   a fixed range only when it leaves the calendar or is longer than five years.
   */
  lemma ResolvesIff(period: RelativePeriod, today: CalendarDate)
    requires WellShaped(period) && InRange(today)
    ensures Resolve(period, today).Ok? <==> Resolvable(period, today)
  {
    hide Ordinal, Resolve, Resolvable, Window;
    match period
    case Fixed(start, end) => FixedResolves(start, end, today);
    case LastNDays(days) => DaysResolve(days, today);
    case CurrentMonth => MonthResolves(today);
    case PreviousMonth => MonthResolves(today);
    case CurrentQuarter => QuarterResolves(today);
    case PreviousQuarter => QuarterResolves(today);
    case CurrentYear => YearResolves(today);
    case PreviousYear => YearResolves(today);
  }

  lemma FixedResolves(start: CalendarDate, end: CalendarDate, today: CalendarDate)
    requires WellShaped(Fixed(start, end))
    ensures Resolve(Fixed(start, end), today).Ok? <==> Resolvable(Fixed(start, end), today)
  {
    hide Ordinal;
  }

  lemma DaysResolve(days: int, today: CalendarDate)
    requires WellShaped(LastNDays(days)) && InRange(today)
    ensures Resolve(LastNDays(days), today).Ok? <==> Resolvable(LastNDays(days), today)
  {
    hide Ordinal;
    FirstDayFloor(today, AddDays(today, -days));
  }

  lemma MonthResolves(today: CalendarDate)
    requires InRange(today)
    ensures Resolve(CurrentMonth, today).Ok? <==> Resolvable(CurrentMonth, today)
    ensures Resolve(PreviousMonth, today).Ok? <==> Resolvable(PreviousMonth, today)
  {
    hide Ordinal, Resolve;
    UnitResolves(Month, today);
  }

  lemma QuarterResolves(today: CalendarDate)
    requires InRange(today)
    ensures Resolve(CurrentQuarter, today).Ok? <==> Resolvable(CurrentQuarter, today)
    ensures Resolve(PreviousQuarter, today).Ok? <==> Resolvable(PreviousQuarter, today)
  {
    hide Ordinal, Resolve;
    UnitResolves(Quarter, today);
  }

  lemma YearResolves(today: CalendarDate)
    requires InRange(today)
    ensures Resolve(CurrentYear, today).Ok? <==> Resolvable(CurrentYear, today)
    ensures Resolve(PreviousYear, today).Ok? <==> Resolvable(PreviousYear, today)
  {
    hide Ordinal, Resolve;
    UnitResolves(Year, today);
  }

  lemma FirstDay()
    ensures Ordinal(Date(1, 1, 1)) == 1
  {
  }

  lemma FirstDayFloor(today: CalendarDate, earlier: CalendarDate)
    requires Ordinal(earlier) < Ordinal(today) && InRange(today)
    ensures InRange(earlier) <==> Ordinal(earlier) >= 1
  {
    hide Ordinal;
    FirstDay();
    OrdinalOrder(earlier, Date(1, 1, 1));
    OrdinalOrder(earlier, today);
  }

  lemma UnitResolves(unit: Unit, today: CalendarDate)
    ensures var w := Window(Current(unit), today); Resolve(Current(unit), today).Ok? <==> InRange(w.start) && InRange(w.end)
    ensures var w := Window(Previous(unit), today); Resolve(Previous(unit), today).Ok? <==> InRange(w.start) && InRange(w.end)
  {
    hide Ordinal, Window, UnitWindow;
    WindowsAreUnits(unit, today);
    UnitSpan(unit, UnitNumber(unit, today));
    UnitSpan(unit, UnitNumber(unit, today) - 1);
  }

  /**
   Despite the module's own description, a current window always includes today, and it runs
   past today except on the unit's last day.
   */
  lemma CurrentRunsPastToday(unit: Unit, today: CalendarDate)
    ensures Contains(Window(Current(unit), today), today)
    ensures Contains(Window(Current(unit), today), NextDay(today)) <==> UnitNumber(unit, NextDay(today)) == UnitNumber(unit, today)
  {
    hide Ordinal;
    WindowsAreUnits(unit, today);
    UnitContainsIff(unit, UnitNumber(unit, today), today);
    UnitContainsIff(unit, UnitNumber(unit, today), NextDay(today));
  }

  /** Why a period is refused: a fixed range within Python's years is too long, and anything else leaves those years; none ends before it starts. */
  lemma RefusedAs(period: RelativePeriod, today: CalendarDate)
    requires WellShaped(period) && InRange(today) && !Resolvable(period, today)
    ensures Resolve(period, today) ==
      Raised(if period.Fixed? && 1 <= period.start.year <= 9999 && 1 <= period.end.year <= 9999 then TooLong else DateOutOfRange)
  {
    ResolvesIff(period, today);
    hide Ordinal, Resolvable;
    match period
    case Fixed(_, _) =>
    case LastNDays(_) =>
    case CurrentMonth => UnitRefused(Month, today);
    case PreviousMonth => UnitRefused(Month, today);
    case CurrentQuarter => UnitRefused(Quarter, today);
    case PreviousQuarter => UnitRefused(Quarter, today);
    case CurrentYear => UnitRefused(Year, today);
    case PreviousYear => UnitRefused(Year, today);
  }

  lemma UnitRefused(unit: Unit, today: CalendarDate)
    ensures !Resolve(Current(unit), today).Ok? ==> Resolve(Current(unit), today) == Raised(DateOutOfRange)
    ensures !Resolve(Previous(unit), today).Ok? ==> Resolve(Previous(unit), today) == Raised(DateOutOfRange)
  {
    UnitResolves(unit, today);
    hide Ordinal, Window;
  }
}
