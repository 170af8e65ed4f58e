/** Concrete runs of the lease protocol in which something its users rely on goes wrong. */
module LeaseRuns {
  import opened Common
  import opened Calendar
  import opened Calculator
  import opened Zones
  import opened Schedules
  import opened LeaseProtocol
  import opened LeaseEdits

  const HOUR: int := 60 * MICROS_PER_MINUTE

  /** The default of `worker_claim_stale_seconds`. */
  const STALE_AFTER: int := 15 * MICROS_PER_MINUTE

  const UTC: Zone := Zone(0, [])

  /** Clocks go back from UTC-4 to UTC-5 at 06:00 UTC of this day. */
  function Autumn(day: CalendarDate): Zone
  {
    Zone(-4 * HOUR, [Transition(WallTime(day, 6 * HOUR), -5 * HOUR)])
  }

  function At(day: CalendarDate, hours: int, minutes: int): int
  {
    WallTime(day, hours * HOUR + minutes * MICROS_PER_MINUTE)
  }

  function FirstRow(config: ScheduleConfig, zone: Zone, next: int): Row
  {
    Row(0, 0, config, zone, true, next, None, 0, None, None)
  }

  /** A daily schedule whose firing of this day is ahead, by no more than a day, fires then. */
  lemma DailyRuns(config: ScheduleConfig, zone: Zone, after: int, day: CalendarDate)
    requires config.kind.Daily?
    requires LocalOf(zone, after) < WallTime(day, TimeOfDay(config)) <= LocalOf(zone, after) + MICROS_PER_DAY
    ensures IsNextRun(config, zone, after, UtcOf(zone, WallTime(day, TimeOfDay(config))))
  {
    hide Ordinal, TimeOfDay, LocalOf, UtcOf;
    assert Matches(config, day);
    forall e: CalendarDate | Matches(config, e) && WallTime(e, TimeOfDay(config)) > LocalOf(zone, after)
      ensures Ordinal(day) <= Ordinal(e)
    {
    }
    assert IsNextFiring(config, LocalOf(zone, after), day);
  }

  /** In that zone a daily 01:30 schedule runs at 05:30 UTC, and asked again at 06:10 UTC it is to run at 05:30 UTC. */
  lemma AutumnRuns(day: CalendarDate)
    ensures var config, zone := Config(Daily, 1, 30), Autumn(day);
      && WellSeparated(zone)
      && IsNextRun(config, zone, At(day, 5, 0), At(day, 5, 30))
      && IsNextRun(config, zone, At(day, 6, 10), At(day, 5, 30))
  {
    hide Ordinal, IsNextRun;
    var config, zone := Config(Daily, 1, 30), Autumn(day);
    assert Offset(zone, 0) == -4 * HOUR && Offset(zone, 1) == -5 * HOUR;
    assert Segment(zone, At(day, 5, 0), 1) == 0 && Segment(zone, At(day, 6, 10), 1) == 1;
    assert LocalOf(zone, At(day, 5, 0)) == At(day, 1, 0) && LocalOf(zone, At(day, 6, 10)) == At(day, 1, 10);
    assert WallTime(day, TimeOfDay(config)) == At(day, 1, 30);
    assert UtcOf(zone, At(day, 1, 30)) == At(day, 5, 30) by {
      assert WallStart(zone, 1) == At(day, 2, 0);
      assert WallSegment(zone, At(day, 1, 30), 1) == 0;
    }
    DailyRuns(config, zone, At(day, 5, 0), day);
    DailyRuns(config, zone, At(day, 6, 10), day);
  }

  /** The steps of a run that reclaims a crashed occurrence in the second pass of its own hour. */
  function RepeatedHour(day: CalendarDate): seq<Step>
  {
    var config, zone := Config(Daily, 1, 30), Autumn(day);
    var firing, later := At(day, 5, 30), At(day, 6, 10);
    [Create(0, FirstRow(config, zone, firing), At(day, 5, 0)), Tick(firing), Claim(0, 0, firing), Crash(0), Tick(later)]
    + [Claim(1, 0, later), Finish(1, Completed, firing), Claim(2, 0, later), Finish(2, Completed, firing)]
  }

  lemma RepeatedHourStarts(day: CalendarDate)
    ensures var w, steps := Empty(At(day, 5, 0)), RepeatedHour(day)[..5];
      var row := FirstRow(Config(Daily, 1, 30), Autumn(day), At(day, 5, 30));
      && Legal(STALE_AFTER, w, steps) && AllPrompt(STALE_AFTER, w, steps) && AllSeparated(STALE_AFTER, w, steps)
      && After(STALE_AFTER, w, steps) ==
         Cluster(At(day, 6, 10), map[0 := row.(claimedAt := Some(At(day, 5, 30)))], map[], map[])
  {
    AutumnRuns(day);
    hide IsNextRun, Ordinal, Autumn;
    var w, firing, later := Empty(At(day, 5, 0)), At(day, 5, 30), At(day, 6, 10);
    var row := FirstRow(Config(Daily, 1, 30), Autumn(day), firing);
    var a, b, c, d, e := Create(0, row, At(day, 5, 0)), Tick(firing), Claim(0, 0, firing), Crash(0), Tick(later);
    assert firing == At(day, 5, 0) + 30 * MICROS_PER_MINUTE && later == firing + 40 * MICROS_PER_MINUTE;
    OneStep(STALE_AFTER, w, a);
    var w1 := w.(rows := map[0 := row]);
    assert After(STALE_AFTER, w, [a]) == w1;
    Extend(STALE_AFTER, w, [a], b);
    Extend(STALE_AFTER, w, [a] + [b], c);
    Extend(STALE_AFTER, w, [a] + [b] + [c], d);
    Extend(STALE_AFTER, w, [a] + [b] + [c] + [d], e);
    assert RepeatedHour(day)[..5] == [a] + [b] + [c] + [d] + [e];
  }

  lemma RepeatedHourEnds(day: CalendarDate, w: Cluster)
    requires var row := FirstRow(Config(Daily, 1, 30), Autumn(day), At(day, 5, 30));
      w == Cluster(At(day, 6, 10), map[0 := row.(claimedAt := Some(At(day, 5, 30)))], map[], map[])
    ensures var steps := RepeatedHour(day)[5..];
      && Legal(STALE_AFTER, w, steps) && AllPrompt(STALE_AFTER, w, steps) && AllSeparated(STALE_AFTER, w, steps)
      && FinishedOf(After(STALE_AFTER, w, steps), 0) == [At(day, 5, 30), At(day, 5, 30)]
  {
    AutumnRuns(day);
    hide IsNextRun, Ordinal, Autumn;
    var firing, later := At(day, 5, 30), At(day, 6, 10);
    assert later == firing + 40 * MICROS_PER_MINUTE;
    var a, b, c, d := Claim(1, 0, later), Finish(1, Completed, firing), Claim(2, 0, later), Finish(2, Completed, firing);
    OneStep(STALE_AFTER, w, a);
    Extend(STALE_AFTER, w, [a], b);
    Extend(STALE_AFTER, w, [a] + [b], c);
    Extend(STALE_AFTER, w, [a] + [b] + [c], d);
    assert RepeatedHour(day)[5..] == [a] + [b] + [c] + [d];
  }

  /**
   None of this is far-fetched: every worker is prompt, one crashes, and its occurrence is claimed
   again forty minutes later, in the second pass of the hour it fired in. The calculator then gives
   the first pass as the next run, and the 05:30 occurrence is finished twice.
   */
  lemma RepeatedHourRunsTwice(day: CalendarDate)
    ensures var w, steps := Empty(At(day, 5, 0)), RepeatedHour(day);
      && Legal(STALE_AFTER, w, steps) && AllPrompt(STALE_AFTER, w, steps) && AllSeparated(STALE_AFTER, w, steps)
      && FinishedOf(After(STALE_AFTER, w, steps), 0) == [At(day, 5, 30), At(day, 5, 30)]
      && !AllAhead(STALE_AFTER, w, steps)
  {
    var w, steps := Empty(At(day, 5, 0)), RepeatedHour(day);
    RepeatedHourStarts(day);
    assert |steps| == 9;
    hide Legal, After, AllPrompt, AllSeparated, AllAhead, RepeatedHour, At;
    var mid := After(STALE_AFTER, w, steps[..5]);
    RepeatedHourEnds(day, mid);
    assert steps == steps[..5] + steps[5..];
    Join(STALE_AFTER, w, steps[..5], steps[5..]);
    var done := FinishedOf(After(STALE_AFTER, w, steps), 0);
    assert !Increasing(done) by { assert done[0] == done[1]; }
    if AllAhead(STALE_AFTER, w, steps) {
      NoneFinishedTwice(STALE_AFTER, At(day, 5, 0), steps, 0);
    }
  }

  // ---- a worker that is not prompt ----

  /** A schedule for midnight UTC is created the evening before and first picked up ten minutes before the next midnight. */
  function SlowWorker(day: CalendarDate): seq<Step>
  {
    var config, claimed := Config(Daily, 0, 0), At(day, 23, 50);
    var late := claimed + STALE_AFTER + 1;
    [Create(0, FirstRow(config, UTC, At(day, 0, 0)), At(day, -1, 0)), Tick(claimed), Claim(0, 0, claimed), Tick(late), Claim(1, 0, late)]
    + [Finish(0, Completed, At(day, 24, 0)), Claim(2, 0, late)]
  }

  lemma MidnightRuns(day: CalendarDate)
    ensures IsNextRun(Config(Daily, 0, 0), UTC, At(day, -1, 0), At(day, 0, 0))
    ensures IsNextRun(Config(Daily, 0, 0), UTC, At(day, 23, 50), At(day, 24, 0))
  {
    hide IsNextRun;
    var config := Config(Daily, 0, 0);
    OrdinalCountsDays(day);
    hide Ordinal;
    assert WallTime(day, TimeOfDay(config)) == At(day, 0, 0) && WallTime(NextDay(day), TimeOfDay(config)) == At(day, 24, 0);
    DailyRuns(config, UTC, At(day, -1, 0), day);
    DailyRuns(config, UTC, At(day, 23, 50), NextDay(day));
  }

  /**
   Without promptness the lease fails: the worker still at work past `staleAfter` shares its row with
   the next claimer, and by recording its result it frees the row for a third while the second works on.
   */
  lemma SlowWorkerShares(day: CalendarDate)
    ensures var w, steps := Empty(At(day, -1, 0)), SlowWorker(day);
      && Legal(STALE_AFTER, w, steps)
      && Legal(STALE_AFTER, w, steps[..5])
      && (var overlap := After(STALE_AFTER, w, steps[..5]);
          0 in overlap.holds && 1 in overlap.holds && overlap.holds[0].row == overlap.holds[1].row == 0)
      && (var cleared := After(STALE_AFTER, w, steps);
          1 in cleared.holds && 2 in cleared.holds && cleared.holds[1].row == cleared.holds[2].row == 0)
  {
    MidnightRuns(day);
    hide IsNextRun, Ordinal;
    var w, claimed := Empty(At(day, -1, 0)), At(day, 23, 50);
    var late := claimed + STALE_AFTER + 1;
    var row := FirstRow(Config(Daily, 0, 0), UTC, At(day, 0, 0));
    var a, b, c, d, e := Create(0, row, At(day, -1, 0)), Tick(claimed), Claim(0, 0, claimed), Tick(late), Claim(1, 0, late);
    var f, g := Finish(0, Completed, At(day, 24, 0)), Claim(2, 0, late);
    assert At(day, 24, 0) == claimed + 10 * MICROS_PER_MINUTE;
    OneStep(STALE_AFTER, w, a);
    Extend(STALE_AFTER, w, [a], b);
    Extend(STALE_AFTER, w, [a] + [b], c);
    Extend(STALE_AFTER, w, [a] + [b] + [c], d);
    Extend(STALE_AFTER, w, [a] + [b] + [c] + [d], e);
    var overlap := [a] + [b] + [c] + [d] + [e];
    assert SlowWorker(day)[..5] == overlap;
    Extend(STALE_AFTER, w, overlap, f);
    Extend(STALE_AFTER, w, overlap + [f], g);
    assert SlowWorker(day) == overlap + [f] + [g];
  }

  // ---- an edit made while a worker runs ----

  /** The schedule is moved from midnight to nine o'clock while a worker runs it. */
  function EditedMeanwhile(day: CalendarDate): seq<Step>
  {
    var midnight, nine := Config(Daily, 0, 0), Config(Daily, 9, 0);
    var claimed := At(day, 0, 0);
    [Create(0, FirstRow(midnight, UTC, claimed), At(day, -1, 0)), Tick(claimed), Claim(0, 0, claimed),
     Edit(0, nine, UTC, claimed, At(day, 9, 0)), Finish(0, Completed, At(day, 24, 0))]
  }

  lemma NeverAtMidnight(day: CalendarDate, reference: int)
    ensures !IsNextRun(Config(Daily, 9, 0), UTC, reference, At(day, 24, 0))
  {
    hide Ordinal;
  }

  lemma EditedRun(day: CalendarDate)
    ensures var w, steps := Empty(At(day, -1, 0)), EditedMeanwhile(day);
      var row := FirstRow(Config(Daily, 0, 0), UTC, At(day, 0, 0));
      && Legal(STALE_AFTER, w, steps) && AllPrompt(STALE_AFTER, w, steps)
      && After(STALE_AFTER, w, steps).rows ==
         map[0 := Recorded(row.(config := Config(Daily, 9, 0)), At(day, 0, 0), Completed, At(day, 24, 0))]
  {
    MidnightRuns(day);
    NineRuns(day);
    hide IsNextRun, Ordinal;
    var w, claimed := Empty(At(day, -1, 0)), At(day, 0, 0);
    var row := FirstRow(Config(Daily, 0, 0), UTC, claimed);
    var a, b, c := Create(0, row, At(day, -1, 0)), Tick(claimed), Claim(0, 0, claimed);
    var d, e := Edit(0, Config(Daily, 9, 0), UTC, claimed, At(day, 9, 0)), Finish(0, Completed, At(day, 24, 0));
    OneStep(STALE_AFTER, w, a);
    Extend(STALE_AFTER, w, [a], b);
    Extend(STALE_AFTER, w, [a] + [b], c);
    Extend(STALE_AFTER, w, [a] + [b] + [c], d);
    Extend(STALE_AFTER, w, [a] + [b] + [c] + [d], e);
    assert EditedMeanwhile(day) == [a] + [b] + [c] + [d] + [e];
  }

  /** The edit is lost: the record overwrites its next run with the old schedule's, at which the new schedule never fires. */
  lemma EditLostToRecord(day: CalendarDate)
    ensures var w, steps := Empty(At(day, -1, 0)), EditedMeanwhile(day);
      && Legal(STALE_AFTER, w, steps) && AllPrompt(STALE_AFTER, w, steps)
      && var rows := After(STALE_AFTER, w, steps).rows;
         0 in rows && rows[0].config == Config(Daily, 9, 0) && rows[0].nextRunAt == At(day, 24, 0) && !OwnNext(rows[0])
  {
    EditedRun(day);
    forall reference
      ensures !IsNextRun(Config(Daily, 9, 0), UTC, reference, At(day, 24, 0))
    {
      NeverAtMidnight(day, reference);
    }
    hide IsNextRun, Ordinal, Legal, After, AllPrompt, EditedMeanwhile;
  }

  lemma NineRuns(day: CalendarDate)
    ensures IsNextRun(Config(Daily, 9, 0), UTC, At(day, 0, 0), At(day, 9, 0))
    ensures IsNextRun(Config(Daily, 0, 0), UTC, At(day, 0, 0), At(day, 24, 0))
  {
    hide IsNextRun;
    OrdinalCountsDays(day);
    hide Ordinal;
    assert WallTime(day, TimeOfDay(Config(Daily, 9, 0))) == At(day, 9, 0);
    assert WallTime(NextDay(day), TimeOfDay(Config(Daily, 0, 0))) == At(day, 24, 0);
    DailyRuns(Config(Daily, 9, 0), UTC, At(day, 0, 0), day);
    DailyRuns(Config(Daily, 0, 0), UTC, At(day, 0, 0), NextDay(day));
  }
}
