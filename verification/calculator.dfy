/** The next instant a schedule fires (backend/app/scheduling/calculator.py). */
module Calculator {
  import opened Calendar
  import opened Zones

  const MICROS_PER_MINUTE: int := 60_000_000
  const MICROS_PER_DAY: int := 86_400_000_000

  datatype Kind = Daily | Weekly(dayOfWeek: int) | Monthly(dayOfMonth: int) | Quarterly(dayOfMonth: int, monthOfQuarter: int)
  datatype Config = Config(kind: Kind, hour: int, minute: int)

  /** The bounds the configuration type enforces. */
  predicate ValidConfig(c: Config)
  {
    && 0 <= c.hour <= 23 && 0 <= c.minute <= 59
    && match c.kind
       case Daily => true
       case Weekly(dow) => 0 <= dow <= 6
       case Monthly(dom) => 1 <= dom <= 28
       case Quarterly(dom, moq) => 1 <= dom <= 28 && 1 <= moq <= 3
  }

  type ScheduleConfig = c: Config | ValidConfig(c) witness Config(Daily, 6, 0)

  function TimeOfDay(config: ScheduleConfig): (micros: int)
    ensures 0 <= micros < MICROS_PER_DAY
  {
    (60 * config.hour + config.minute) * MICROS_PER_MINUTE
  }

  /** A wall-clock time as one number: the order of these is the order Python compares them in. */
  function WallTime(date: CalendarDate, micros: int): int
  {
    Ordinal(date) * MICROS_PER_DAY + micros
  }

  function DateOfWall(wall: int): (date: CalendarDate)
    ensures WallTime(date, 0) <= wall < WallTime(date, MICROS_PER_DAY)
  {
    hide Ordinal;
    FromOrdinal(wall / MICROS_PER_DAY)
  }

  predicate QuarterCycleMonth(monthOfQuarter: int, month: int)
  {
    (month - 1) % 3 + 1 == monthOfQuarter
  }

  /** The dates a schedule may fire on. */
  predicate Matches(config: ScheduleConfig, date: CalendarDate)
  {
    match config.kind
    case Daily => true
    case Weekly(dow) => Weekday(date) == dow
    case Monthly(dom) => date.day == dom
    case Quarterly(dom, moq) => date.day == dom && QuarterCycleMonth(moq, date.month)
  }

  /** The least wall-clock time strictly after the reference at which the schedule fires. */
  ghost predicate IsNextFiring(config: ScheduleConfig, reference: int, date: CalendarDate)
  {
    && Matches(config, date)
    && WallTime(date, TimeOfDay(config)) > reference
    && forall e: CalendarDate :: Matches(config, e) && WallTime(e, TimeOfDay(config)) > reference ==> Ordinal(date) <= Ordinal(e)
  }

  // ---- the generator of candidate dates ----

  /** The suspended generator `_candidate_dates`: which day or month it will look at next. */
  class CandidateDates {
    const config: ScheduleConfig
    const today: CalendarDate
    var offset: nat
    var monthStart: CalendarDate

    /** Every date before this one has been looked at. */
    ghost function Frontier(): int
      reads this
    {
      if config.kind.Daily? || config.kind.Weekly? then Ordinal(today) + offset else Ordinal(monthStart)
    }

    ghost predicate Valid()
      reads this
    {
      monthStart.day == 1
    }

    constructor (config: ScheduleConfig, today: CalendarDate)
      ensures Valid() && this.config == config && this.today == today
      ensures Frontier() <= Ordinal(today)
    {
      this.config := config;
      this.today := today;
      offset := 0;
      monthStart := Date(today.year, today.month, 1);
      new;
      BeforeMonthIff(today, MonthIndex(today));
      MonthIndexRoundTrip(monthStart);
    }

    /** The next candidate is the only matching date between where the generator was and where it is now. */
    method Next() returns (date: CalendarDate)
      requires Valid()
      modifies this
      ensures Valid()
      ensures Matches(config, date) && old(Frontier()) <= Ordinal(date) < Frontier()
      ensures forall e: CalendarDate :: Matches(config, e) && old(Frontier()) <= Ordinal(e) < Frontier() ==> e == date
    {
      match config.kind {
        case Daily =>
          date := AddDays(today, offset);
          offset := offset + 1;
          OnlyOneDay(date);
        case Weekly(dow) =>
          date := NextWeekday(dow);
        case Monthly(dom) =>
          date := Date(monthStart.year, monthStart.month, dom);
          AdvanceMonth(monthStart, dom);
          monthStart := AddMonths(monthStart, 1);
        case Quarterly(dom, moq) =>
          date := NextQuarterDay(dom, moq);
      }
    }

    method NextWeekday(dow: int) returns (date: CalendarDate)
      requires Valid() && config.kind == Weekly(dow)
      modifies this`offset
      ensures Matches(config, date) && old(Frontier()) <= Ordinal(date) < Frontier()
      ensures forall e: CalendarDate :: Matches(config, e) && old(Frontier()) <= Ordinal(e) < Frontier() ==> e == date
    {
      hide Ordinal;
      date := AddDays(today, offset);
      offset := offset + 1;
      while Weekday(date) != dow
        invariant Ordinal(date) == Ordinal(today) + offset - 1 >= old(Frontier())
        invariant forall e: CalendarDate :: Matches(config, e) && old(Frontier()) <= Ordinal(e) < Ordinal(date) ==> e == date
        decreases (dow - Weekday(date)) % 7
      {
        OnlyOneDay(date);
        WeekdayAdvances(date, AddDays(today, offset));
        date := AddDays(today, offset);
        offset := offset + 1;
      }
      OnlyOneDay(date);
    }

    method NextQuarterDay(dom: int, moq: int) returns (date: CalendarDate)
      requires Valid() && config.kind == Quarterly(dom, moq)
      modifies this`monthStart
      ensures Valid() && Matches(config, date) && old(Frontier()) <= Ordinal(date) < Frontier()
      ensures forall e: CalendarDate :: Matches(config, e) && old(Frontier()) <= Ordinal(e) < Frontier() ==> e == date
    {
      hide Ordinal, FirstOfMonth;
      while !QuarterCycleMonth(moq, monthStart.month)
        invariant Valid() && old(Frontier()) <= Ordinal(monthStart)
        invariant forall e: CalendarDate :: Matches(config, e) && old(Frontier()) <= Ordinal(e) ==> Ordinal(monthStart) <= Ordinal(e)
        decreases (moq - monthStart.month) % 3
      {
        AdvanceMonth(monthStart, dom);
        monthStart := AddMonths(monthStart, 1);
      }
      date := Date(monthStart.year, monthStart.month, dom);
      AdvanceMonth(monthStart, dom);
      monthStart := AddMonths(monthStart, 1);
    }
  }

  lemma OnlyOneDay(date: CalendarDate)
    ensures forall e: CalendarDate :: Ordinal(date) <= Ordinal(e) < Ordinal(date) + 1 ==> e == date
  {
    hide Ordinal;
    forall e: CalendarDate | Ordinal(e) == Ordinal(date) ensures e == date {
      OrdinalOrder(e, date);
    }
  }

  lemma WeekdayAdvances(date: CalendarDate, next: CalendarDate)
    requires Ordinal(next) == Ordinal(date) + 1
    ensures Weekday(next) == (Weekday(date) + 1) % 7
  {
    hide Ordinal;
  }

  /** Between the first of a month and the first of the next lie exactly that month's dates. */
  lemma AdvanceMonth(monthStart: CalendarDate, dom: int)
    requires monthStart.day == 1 && 1 <= dom <= 28
    ensures var next := AddMonths(monthStart, 1);
      && Ordinal(monthStart) <= Ordinal(Date(monthStart.year, monthStart.month, dom)) < Ordinal(next)
      && next.month % 3 == (monthStart.month + 1) % 3
      && forall e: CalendarDate :: Ordinal(monthStart) <= Ordinal(e) < Ordinal(next) ==> e.year == monthStart.year && e.month == monthStart.month
  {
    hide Ordinal, FirstOfMonth;
    var index, date := MonthIndex(monthStart), Date(monthStart.year, monthStart.month, dom);
    AddMonthsIsIndexed(monthStart, 1);
    MonthIndexRoundTrip(monthStart);
    BeforeMonthIff(date, index);
    BeforeMonthIff(date, index + 1);
    forall e: CalendarDate | Ordinal(monthStart) <= Ordinal(e) < Ordinal(AddMonths(monthStart, 1))
      ensures e.year == monthStart.year && e.month == monthStart.month
    {
      BeforeMonthIff(e, index);
      BeforeMonthIff(e, index + 1);
    }
  }

  // ---- the search ----

  /**
   The program's search, for a reference given on the schedule's own clock. It always ends, and
   with the least wall time after the reference at which the schedule fires: none is skipped.
   */
  method NextLocalRun(config: ScheduleConfig, reference: int) returns (date: CalendarDate)
    ensures IsNextFiring(config, reference, date)
  {
    var today := DateOfWall(reference);
    var candidates := new CandidateDates(config, today);
    date := candidates.Next();
    while WallTime(date, TimeOfDay(config)) <= reference
      invariant candidates.Valid() && candidates.config == config && Matches(config, date)
      invariant Ordinal(date) < candidates.Frontier()
      invariant forall e: CalendarDate :: Matches(config, e) && Ordinal(e) < candidates.Frontier() && WallTime(e, TimeOfDay(config)) > reference ==> e == date
      decreases Ordinal(today) - Ordinal(date)
    {
      date := candidates.Next();
    }
  }

  /** `compute_next_run`: the UTC reference goes to the schedule's clock, the answer comes back from it. */
  method ComputeNextRun(config: ScheduleConfig, zone: Zone, after: int) returns (next: int, ghost date: CalendarDate)
    ensures IsNextFiring(config, LocalOf(zone, after), date)
    ensures next == UtcOf(zone, WallTime(date, TimeOfDay(config)))
  {
    var found := NextLocalRun(config, LocalOf(zone, after));
    date := found;
    next := UtcOf(zone, WallTime(found, TimeOfDay(config)));
  }

  /** There is only one next firing. */
  lemma NextFiringUnique(config: ScheduleConfig, reference: int, d: CalendarDate, e: CalendarDate)
    requires IsNextFiring(config, reference, d) && IsNextFiring(config, reference, e)
    ensures d == e
  {
    hide Ordinal;
    OrdinalOrder(d, e);
  }

  /**
   How long a schedule can keep one waiting: a day, seven days, into the next month, or into the
   third month from now.
   */
  lemma NextFiringSoon(config: ScheduleConfig, reference: int, date: CalendarDate)
    requires IsNextFiring(config, reference, date)
    ensures config.kind.Daily? ==> WallTime(date, TimeOfDay(config)) <= reference + MICROS_PER_DAY
    ensures config.kind.Weekly? ==> WallTime(date, TimeOfDay(config)) <= reference + 7 * MICROS_PER_DAY
    ensures config.kind.Monthly? ==> MonthIndex(date) <= MonthIndex(DateOfWall(reference)) + 1
    ensures config.kind.Quarterly? ==> MonthIndex(date) <= MonthIndex(DateOfWall(reference)) + 3
  {
    hide Ordinal, FirstOfMonth, IsNextFiring, Matches, WallTime;
    match config.kind
    case Daily => DailyMatches(config, DateOfWall(reference)); SoonByDays(config, reference, date, 0, 1);
    case Weekly(dow) =>
      var wait := (dow - Weekday(DateOfWall(reference))) % 7;
      WeeklyMatches(config, DateOfWall(reference), dow);
      SoonByDays(config, reference, date, wait, 7);
    case Monthly(dom) => MonthlyMatches(config, MonthIndex(DateOfWall(reference)), dom); SoonByMonths(config, reference, date, 0, 1, dom);
    case Quarterly(dom, moq) =>
      var wait := (moq - 1 - MonthIndex(DateOfWall(reference))) % 3;
      QuarterlyMatches(config, MonthIndex(DateOfWall(reference)), dom, moq);
      SoonByMonths(config, reference, date, wait, 3, dom);
  }

  lemma DailyMatches(config: ScheduleConfig, today: CalendarDate)
    requires config.kind.Daily?
    ensures Matches(config, AddDays(today, 0)) && Matches(config, AddDays(today, 1))
  {
  }

  lemma WeeklyMatches(config: ScheduleConfig, today: CalendarDate, dow: int)
    requires config.kind == Weekly(dow)
    ensures var wait := (dow - Weekday(today)) % 7; Matches(config, AddDays(today, wait)) && Matches(config, AddDays(today, wait + 7))
  {
    hide Ordinal;
    WaitModSeven(Ordinal(today) + 6, dow);
  }

  lemma WaitModSeven(n: int, target: int)
    requires 0 <= target <= 6
    ensures (n + (target - n % 7) % 7) % 7 == target
    ensures (n + ((target - n % 7) % 7 + 7)) % 7 == target
  {
    var w := n % 7;
    assert n == 7 * (n / 7) + w;
    assert (target - w) % 7 == if w <= target then target - w else target - w + 7;
  }

  lemma MonthlyMatches(config: ScheduleConfig, index: int, dom: int)
    requires config.kind == Monthly(dom)
    ensures Matches(config, DayOfMonth(index, dom)) && Matches(config, DayOfMonth(index + 1, dom))
  {
  }

  lemma QuarterlyMatches(config: ScheduleConfig, index: int, dom: int, moq: int)
    requires config.kind == Quarterly(dom, moq)
    ensures var wait := (moq - 1 - index) % 3;
      Matches(config, DayOfMonth(index + wait, dom)) && Matches(config, DayOfMonth(index + 3 + wait, dom))
  {
    hide FirstOfMonth;
    CycleMonth(DayOfMonth(index + (moq - 1 - index) % 3, dom), moq);
    CycleMonth(DayOfMonth(index + 3 + (moq - 1 - index) % 3, dom), moq);
  }

  lemma CycleMonth(d: CalendarDate, moq: int)
    requires 1 <= moq <= 3
    ensures QuarterCycleMonth(moq, d.month) <==> MonthIndex(d) % 3 == moq - 1
  {
    assert MonthIndex(d) == 3 * (4 * d.year + (d.month - 1) / 3) + (d.month - 1) % 3;
  }

  lemma SoonByDays(config: ScheduleConfig, reference: int, date: CalendarDate, wait: int, step: int)
    requires IsNextFiring(config, reference, date)
    requires 0 <= wait < step <= 7
    requires Matches(config, AddDays(DateOfWall(reference), wait)) && Matches(config, AddDays(DateOfWall(reference), wait + step))
    ensures WallTime(date, TimeOfDay(config)) <= reference + step * MICROS_PER_DAY
  {
    hide Ordinal, Matches;
    var soon := AddDays(DateOfWall(reference), wait);
    if WallTime(soon, TimeOfDay(config)) <= reference {
      soon := AddDays(DateOfWall(reference), wait + step);
    }
    assert Ordinal(date) <= Ordinal(soon);
  }

  lemma SoonByMonths(config: ScheduleConfig, reference: int, date: CalendarDate, wait: int, step: int, dom: int)
    requires IsNextFiring(config, reference, date)
    requires 0 <= wait < step <= 3 && 1 <= dom <= 28
    requires Matches(config, DayOfMonth(MonthIndex(DateOfWall(reference)) + wait, dom))
    requires Matches(config, DayOfMonth(MonthIndex(DateOfWall(reference)) + step + wait, dom))
    ensures MonthIndex(date) <= MonthIndex(DateOfWall(reference)) + step
  {
    hide Ordinal, Matches, FirstOfMonth;
    // With a wait the date is already in a later month; without one, the month `step` later is.
    var index := MonthIndex(DateOfWall(reference)) + if wait > 0 then wait else step;
    var soon := DayOfMonth(index, dom);
    BeforeMonthIff(DateOfWall(reference), index);
    BeforeMonthIff(soon, index);
    BeforeMonthIff(date, MonthIndex(date));
    BeforeMonthIff(soon, MonthIndex(date));
    assert WallTime(soon, TimeOfDay(config)) > reference;
    assert Ordinal(date) <= Ordinal(soon);
  }

  /** A schedule always has a firing ahead. */
  lemma SomeFiringAhead(config: ScheduleConfig, reference: int) returns (soon: CalendarDate)
    ensures Matches(config, soon) && WallTime(soon, TimeOfDay(config)) > reference
  {
    hide Ordinal, Matches, FirstOfMonth;
    var today := DateOfWall(reference);
    match config.kind {
      case Daily =>
        DailyMatches(config, today);
        soon := AddDays(today, 1);
      case Weekly(dow) =>
        WeeklyMatches(config, today, dow);
        soon := AddDays(today, (dow - Weekday(today)) % 7 + 7);
      case Monthly(dom) =>
        MonthlyMatches(config, MonthIndex(today), dom);
        soon := DayOfMonth(MonthIndex(today) + 1, dom);
        LaterMonthIsLater(today, soon);
      case Quarterly(dom, moq) =>
        QuarterlyMatches(config, MonthIndex(today), dom, moq);
        soon := DayOfMonth(MonthIndex(today) + 3 + (moq - 1 - MonthIndex(today)) % 3, dom);
        LaterMonthIsLater(today, soon);
    }
  }

  lemma LaterMonthIsLater(d: CalendarDate, e: CalendarDate)
    requires MonthIndex(d) < MonthIndex(e)
    ensures Ordinal(d) < Ordinal(e)
  {
    hide Ordinal, FirstOfMonth;
    BeforeMonthIff(d, MonthIndex(e));
    BeforeMonthIff(e, MonthIndex(e));
  }

  /** So it always has a next one. */
  lemma NextFiringExists(config: ScheduleConfig, reference: int) returns (date: CalendarDate)
    ensures IsNextFiring(config, reference, date)
  {
    hide Ordinal, Matches;
    var soon := SomeFiringAhead(config, reference);
    date := LeastFiring(config, reference, DateOfWall(reference), soon);
  }

  lemma {:induction false} LeastFiring(config: ScheduleConfig, reference: int, from: CalendarDate, soon: CalendarDate) returns (date: CalendarDate)
    requires Matches(config, soon) && WallTime(soon, TimeOfDay(config)) > reference
    requires forall e: CalendarDate :: Matches(config, e) && WallTime(e, TimeOfDay(config)) > reference ==> Ordinal(from) <= Ordinal(e)
    ensures IsNextFiring(config, reference, date)
    decreases Ordinal(soon) - Ordinal(from)
  {
    if Matches(config, from) && WallTime(from, TimeOfDay(config)) > reference {
      date := from;
    } else {
      OrdinalCountsDays(from);
      hide Ordinal, Matches, NextDay;
      forall e: CalendarDate | Matches(config, e) && WallTime(e, TimeOfDay(config)) > reference
        ensures Ordinal(NextDay(from)) <= Ordinal(e)
      {
        if Ordinal(e) == Ordinal(from) {
          OrdinalOrder(e, from);
        }
      }
      date := LeastFiring(config, reference, NextDay(from), soon);
    }
  }

  function DayOfMonth(index: int, dom: int): (d: CalendarDate)
    requires 1 <= dom <= 28
    ensures MonthIndex(d) == index && d.day == dom
  {
    Date(FirstOfMonth(index).year, FirstOfMonth(index).month, dom)
  }

  // ---- strictly after, on the UTC clock ----

  /** The schedule still has a firing time left in the repeated stretch whose second pass is under way. */
  ghost predicate FiresAgainInRepeat(config: ScheduleConfig, zone: Zone, after: int)
  {
    && Current(zone, after) > 0
    && exists e: CalendarDate ::
         Matches(config, e) && LocalOf(zone, after) < WallTime(e, TimeOfDay(config)) < WallStart(zone, Current(zone, after))
  }

  /**
   The answer is strictly after the reference as an instant, and not only on the wall clock,
   except exactly when the reference is in the second pass of a repeated stretch and the schedule
   has a firing time left in it: then the answer is that time's first pass, which is over.
   */
  lemma StrictlyAfterIff(config: ScheduleConfig, zone: Zone, after: int, date: CalendarDate)
    requires WellSeparated(zone) && IsNextFiring(config, LocalOf(zone, after), date)
    ensures UtcOf(zone, WallTime(date, TimeOfDay(config))) > after <==> !FiresAgainInRepeat(config, zone, after)
  {
    hide Ordinal, Matches, WellSeparated;
    var wall := WallTime(date, TimeOfDay(config));
    LaterWallIsLaterIff(zone, after, wall);
    if FiresAgainInRepeat(config, zone, after) {
      var e: CalendarDate :| Matches(config, e) && LocalOf(zone, after) < WallTime(e, TimeOfDay(config)) < WallStart(zone, Current(zone, after));
      assert Ordinal(date) <= Ordinal(e);
    }
  }

  /** A firing time is left in the repeated stretch under way whose first pass came no later than this moment. */
  ghost predicate FiresAgainBy(config: ScheduleConfig, zone: Zone, after: int, moment: int)
  {
    && Current(zone, after) > 0
    && exists e: CalendarDate ::
         && Matches(config, e) && LocalOf(zone, after) < WallTime(e, TimeOfDay(config)) < WallStart(zone, Current(zone, after))
         && WallTime(e, TimeOfDay(config)) - Offset(zone, Current(zone, after) - 1) <= moment
  }

  /**
   Whether the answer lies after a moment that is already past, such as the firing now being run:
   it does unless that firing, or an earlier one, comes round a second time.
   */
  lemma LaterThanIff(config: ScheduleConfig, zone: Zone, after: int, moment: int, date: CalendarDate)
    requires WellSeparated(zone) && IsNextFiring(config, LocalOf(zone, after), date) && moment <= after
    ensures UtcOf(zone, WallTime(date, TimeOfDay(config))) > moment <==> !FiresAgainBy(config, zone, after, moment)
  {
    hide Ordinal, Matches, WellSeparated;
    var wall := WallTime(date, TimeOfDay(config));
    LaterWallIsLaterIff(zone, after, wall);
    if FiresAgainBy(config, zone, after, moment) {
      var e: CalendarDate :| Matches(config, e) && LocalOf(zone, after) < WallTime(e, TimeOfDay(config)) < WallStart(zone, Current(zone, after))
        && WallTime(e, TimeOfDay(config)) - Offset(zone, Current(zone, after) - 1) <= moment;
      assert Ordinal(date) <= Ordinal(e);
      RepeatReadsFirstPass(zone, after, wall);
    } else if UtcOf(zone, wall) <= moment {
      RepeatReadsFirstPass(zone, after, wall);
    }
  }

  /** A firing still ahead on the schedule's own clock comes, as an instant, no later than this moment. */
  ghost predicate FiresBy(config: ScheduleConfig, zone: Zone, after: int, moment: int)
  {
    exists e: CalendarDate ::
      && Matches(config, e) && LocalOf(zone, after) < WallTime(e, TimeOfDay(config))
      && UtcOf(zone, WallTime(e, TimeOfDay(config))) <= moment
  }

  /** Two firings of one schedule are at the same wall time or at least a day apart. */
  lemma FiringsADayApart(config: ScheduleConfig, d: CalendarDate, e: CalendarDate)
    requires Ordinal(d) <= Ordinal(e)
    ensures var wall, later := WallTime(d, TimeOfDay(config)), WallTime(e, TimeOfDay(config));
      later == wall || later >= wall + MICROS_PER_DAY
  {
    hide Ordinal, TimeOfDay;
  }

  /**
   Whether the answer lies after any moment, past or to come: it does unless a firing ahead comes no
   later. For a moment to come this asks of the zone that no change skips more than a day, and that
   changes are a day apart.
   */
  lemma LaterThanAnyIff(config: ScheduleConfig, zone: Zone, after: int, moment: int, date: CalendarDate)
    requires WellSeparated(zone) && IsNextFiring(config, LocalOf(zone, after), date)
    requires moment <= after || (SkipsAtMost(zone, MICROS_PER_DAY) && ChangesApart(zone, MICROS_PER_DAY))
    ensures UtcOf(zone, WallTime(date, TimeOfDay(config))) > moment <==> !FiresBy(config, zone, after, moment)
  {
    hide Ordinal, Matches, WellSeparated, SkipsAtMost, ChangesApart, LocalOf, UtcOf;
    var wall := WallTime(date, TimeOfDay(config));
    if FiresBy(config, zone, after, moment) {
      var e: CalendarDate :| Matches(config, e) && LocalOf(zone, after) < WallTime(e, TimeOfDay(config))
        && UtcOf(zone, WallTime(e, TimeOfDay(config))) <= moment;
      var later := WallTime(e, TimeOfDay(config));
      FiringsADayApart(config, date, e);
      if moment <= after {
        LaterWallIsLaterIff(zone, after, later);
        RepeatReadsFirstPass(zone, after, later);
        RepeatReadsFirstPass(zone, after, wall);
      } else {
        FarWallIsNoEarlier(zone, wall, later, MICROS_PER_DAY);
      }
    }
  }

  // ---- the instants a schedule fires at ----

  ghost predicate FiresAt(config: ScheduleConfig, zone: Zone, instant: int)
  {
    exists date: CalendarDate :: Matches(config, date) && instant == UtcOf(zone, WallTime(date, TimeOfDay(config)))
  }

  /** The only firing that may come between a firing and what the local clock shows at most a day before it is that of the day before. */
  lemma NextWithinADay(config: ScheduleConfig, reference: int, date: CalendarDate) returns (found: CalendarDate)
    requires Matches(config, date)
    requires WallTime(date, TimeOfDay(config)) - MICROS_PER_DAY - 1 <= reference < WallTime(date, TimeOfDay(config))
    ensures IsNextFiring(config, reference, found)
    ensures var wall := WallTime(date, TimeOfDay(config));
      || WallTime(found, TimeOfDay(config)) == wall
      || WallTime(found, TimeOfDay(config)) == wall - MICROS_PER_DAY == reference + 1
  {
    OrdinalCountsDays(date);
    var before := PreviousDay(date);
    hide Ordinal, Matches, TimeOfDay, PreviousDay;
    found := if Matches(config, before) && reference < WallTime(before, TimeOfDay(config)) then before else date;
    forall e: CalendarDate | Matches(config, e) && WallTime(e, TimeOfDay(config)) > reference
      ensures Ordinal(found) <= Ordinal(e)
    {
      if Ordinal(e) == Ordinal(before) {
        OrdinalOrder(e, before);
      }
    }
  }

  /** Every firing is, as an instant, the answer to some reference. */
  lemma FiringIsAnswer(config: ScheduleConfig, zone: Zone, date: CalendarDate) returns (reference: int, found: CalendarDate)
    requires WellSeparated(zone) && SkipsAtMost(zone, MICROS_PER_DAY) && Matches(config, date)
    ensures IsNextFiring(config, LocalOf(zone, reference), found)
    ensures UtcOf(zone, WallTime(found, TimeOfDay(config))) == UtcOf(zone, WallTime(date, TimeOfDay(config)))
  {
    hide WellSeparated, SkipsAtMost, LocalOf, UtcOf, Matches, IsNextFiring, WallTime;
    reference := ShownBefore(zone, WallTime(date, TimeOfDay(config)), MICROS_PER_DAY);
    found := NextWithinADay(config, LocalOf(zone, reference), date);
  }

  /** Outside second passes, and so always in a zone with a fixed offset, the answer is strictly after. */
  lemma StrictlyAfterOutsideRepeat(config: ScheduleConfig, zone: Zone, after: int, date: CalendarDate)
    requires WellSeparated(zone) && IsNextFiring(config, LocalOf(zone, after), date)
    requires !SecondPass(zone, after)
    ensures UtcOf(zone, WallTime(date, TimeOfDay(config))) > after
  {
    StrictlyAfterIff(config, zone, after, date);
  }

  /**
   A concrete failure: on the day clocks go back from UTC-4 to UTC-5 at 06:00 UTC, a daily 01:30
   schedule asked at 06:10 UTC (01:10, second pass) is told 05:30 UTC, forty minutes ago.
   */
  lemma AnswerInThePast(day: CalendarDate, date: CalendarDate)
    requires var hour := 60 * MICROS_PER_MINUTE;
      var zone := Zone(-4 * hour, [Transition(WallTime(day, 6 * hour), -5 * hour)]);
      IsNextFiring(Config(Daily, 1, 30), LocalOf(zone, WallTime(day, 6 * hour + 10 * MICROS_PER_MINUTE)), date)
    ensures var hour := 60 * MICROS_PER_MINUTE;
      var zone := Zone(-4 * hour, [Transition(WallTime(day, 6 * hour), -5 * hour)]);
      && WellSeparated(zone)
      && UtcOf(zone, WallTime(date, TimeOfDay(Config(Daily, 1, 30)))) == WallTime(day, 5 * hour + 30 * MICROS_PER_MINUTE)
  {
    hide Ordinal;
    var config := Config(Daily, 1, 30);
    assert Matches(config, day);
    assert Ordinal(date) <= Ordinal(day);
  }
}
