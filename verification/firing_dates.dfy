/**
 Which dates and times a schedule fires at, told by the calendar on the wall: a Monday everybody knows,
 the months of each quarter by their numbers, the hour and the minute
 (backend/app/scheduling/calculator.py:42-109).
 */
module FiringDates {
  import opened Calendar
  import opened Zones
  import opened Calculator

  /** Monday, 19 January 2026. */
  const MONDAY: CalendarDate := Date(2026, 1, 19)

  /** The first, second or third months of the four quarters. */
  function MonthsOf(monthOfQuarter: int): set<int>
  {
    if monthOfQuarter == 1 then {1, 4, 7, 10}
    else if monthOfQuarter == 2 then {2, 5, 8, 11}
    else {3, 6, 9, 12}
  }

  /** The date is one the schedule names. */
  ghost predicate Named(config: ScheduleConfig, date: CalendarDate)
  {
    match config.kind
    case Daily => true
    case Weekly(dayOfWeek) => (Ordinal(date) - Ordinal(MONDAY)) % 7 == dayOfWeek
    case Monthly(dayOfMonth) => date.day == dayOfMonth
    case Quarterly(dayOfMonth, monthOfQuarter) => date.day == dayOfMonth && date.month in MonthsOf(monthOfQuarter)
  }

  /** Python's ordinal of that Monday. */
  lemma MondayOrdinal()
    ensures Ordinal(MONDAY) == 739635
  {
    DaysBeforeYearFormula(2026);
  }

  lemma WeekdaySinceMonday(date: CalendarDate)
    ensures Weekday(date) == (Ordinal(date) - Ordinal(MONDAY)) % 7
  {
    MondayOrdinal();
    hide Ordinal;
    var n := Ordinal(date);
    assert n + 6 == n - 739635 + 7 * 105663;
    ShiftModSeven(n - 739635, 105663);
  }

  lemma ShiftModSeven(n: int, weeks: int)
    ensures (n + 7 * weeks) % 7 == n % 7
  {
  }

  lemma MonthInQuarter(monthOfQuarter: int, month: int)
    requires 1 <= monthOfQuarter <= 3 && 1 <= month <= 12
    ensures QuarterCycleMonth(monthOfQuarter, month) <==> month in MonthsOf(monthOfQuarter)
  {
  }

  /** A schedule fires on the dates it names and on no others. */
  lemma MatchesIffNamed(config: ScheduleConfig, date: CalendarDate)
    ensures Matches(config, date) <==> Named(config, date)
  {
    WeekdaySinceMonday(date);
    hide Ordinal, Weekday;
    match config.kind
    case Quarterly(_, monthOfQuarter) => MonthInQuarter(monthOfQuarter, date.month);
    case _ =>
  }

  const MICROS_PER_SECOND: int := 1_000_000

  /** So many whole hours and then so many whole minutes after midnight. */
  predicate ClockReads(wall: int, date: CalendarDate, hour: int, minute: int)
  {
    wall == 24 * 60 * 60 * MICROS_PER_SECOND * Ordinal(date) + (60 * hour + minute) * 60 * MICROS_PER_SECOND
  }

  /**
   The next firing, without a word of the search: on a date the schedule names, at its hour and minute,
   later on the clock than the reference, and no date it names in between has that time still ahead.
   */
  lemma NextFiringMeaning(config: ScheduleConfig, reference: int, date: CalendarDate)
    ensures IsNextFiring(config, reference, date) <==>
      && Named(config, date) && WallTime(date, TimeOfDay(config)) > reference
      && forall e: CalendarDate :: Named(config, e) && Ordinal(e) < Ordinal(date) ==> WallTime(e, TimeOfDay(config)) <= reference
    ensures ClockReads(WallTime(date, TimeOfDay(config)), date, config.hour, config.minute)
  {
    hide Ordinal, Matches, Named;
    MatchesIffNamed(config, date);
    forall e: CalendarDate
      ensures Matches(config, e) <==> Named(config, e)
    {
      MatchesIffNamed(config, e);
    }
  }

  /** A daily schedule asked on the same day before its time fires that day, otherwise the day after. */
  lemma DailyFiresNext(config: ScheduleConfig, day: CalendarDate, timeOfDay: int, date: CalendarDate)
    requires config.kind.Daily? && 0 <= timeOfDay < MICROS_PER_DAY && IsNextFiring(config, WallTime(day, timeOfDay), date)
    ensures date == if timeOfDay < (60 * config.hour + config.minute) * 60 * MICROS_PER_SECOND then day else NextDay(day)
  {
    OrdinalCountsDays(day);
    hide Ordinal, NextDay;
    assert Matches(config, day) && Matches(config, NextDay(day));
    assert TimeOfDay(config) == (60 * config.hour + config.minute) * 60 * MICROS_PER_SECOND;
    OrdinalOrder(date, day);
    OrdinalOrder(date, NextDay(day));
  }

  /** Asked at midnight of a Monday, a schedule for Mondays at nine fires that morning. */
  lemma MondayFiresOnMonday(date: CalendarDate)
    requires IsNextFiring(Config(Weekly(0), 9, 0), WallTime(MONDAY, 0), date)
    ensures date == MONDAY
  {
    hide Ordinal;
    var config := Config(Weekly(0), 9, 0);
    WeekdaySinceMonday(MONDAY);
    assert Matches(config, MONDAY);
    OrdinalOrder(date, MONDAY);
  }
}
