/** Edits made while a worker runs a schedule: when the next run stored for a row is one of its own. */
module LeaseEdits {
  import opened Common
  import opened Schedules
  import opened LeaseProtocol
  import Calculator
  import Calendar
  import Zones

  /** The next run stored for a row is one its own schedule has, from some clock reading on. */
  ghost predicate OwnNext(row: Row)
  {
    exists reference :: IsNextRun(row.config, row.zone, reference, row.nextRunAt)
  }

  ghost predicate AllOwnNext(w: Cluster)
  {
    forall id :: id in w.rows ==> OwnNext(w.rows[id])
  }

  /** An instant is the answer to some reference exactly when the schedule fires at it. */
  lemma FiresAtIff(config: Calculator.ScheduleConfig, zone: Zones.Zone, next: int)
    requires Zones.WellSeparated(zone) && Zones.SkipsAtMost(zone, Calculator.MICROS_PER_DAY)
    ensures Calculator.FiresAt(config, zone, next) <==> exists reference :: IsNextRun(config, zone, reference, next)
  {
    hide Zones.WellSeparated, Zones.SkipsAtMost, Zones.LocalOf, Zones.UtcOf;
    hide Calculator.WallTime, Calculator.Matches;
    if Calculator.FiresAt(config, zone, next) {
      var date: Calendar.CalendarDate :| Calculator.Matches(config, date)
        && next == Zones.UtcOf(zone, Calculator.WallTime(date, Calculator.TimeOfDay(config)));
      var reference, found := Calculator.FiringIsAnswer(config, zone, date);
      hide Calculator.IsNextFiring;
      assert IsNextRun(config, zone, reference, next);
    }
  }

  /** The row whose result is about to be recorded has another schedule than the one it was claimed with. */
  predicate RecordsEdited(w: Cluster, step: Step)
  {
    && step.Finish? && step.h in w.holds && w.holds[step.h].row in w.rows
    && var hold := w.holds[step.h];
       w.rows[hold.row].config != hold.config || w.rows[hold.row].zone != hold.zone
  }

  /** Then the run about to be stored, the old schedule's, falls on an instant at which the new one fires. */
  ghost predicate Fits(w: Cluster, step: Step)
  {
    RecordsEdited(w, step) ==>
      var row := w.rows[w.holds[step.h].row]; Calculator.FiresAt(row.config, row.zone, step.next)
  }

  /** The zone such a row was moved to: its clock changes do not overlap, and none skips more than a day. */
  predicate OrdinaryZone(w: Cluster, step: Step)
  {
    RecordsEdited(w, step) ==>
      var zone := w.rows[w.holds[step.h].row].zone;
      Zones.WellSeparated(zone) && Zones.SkipsAtMost(zone, Calculator.MICROS_PER_DAY)
  }

  lemma RecordOwnNextIff(staleAfter: int, w: Cluster, step: Step)
    requires step.Finish? && Enabled(staleAfter, w, step) && OrdinaryZone(w, step) && w.holds[step.h].row in w.rows
    ensures OwnNext(Next(staleAfter, w, step).rows[w.holds[step.h].row]) <==> Fits(w, step)
  {
    hide IsNextRun, Zones.WellSeparated, Zones.SkipsAtMost, Calculator.FiresAt;
    var hold := w.holds[step.h];
    var row, row' := w.rows[hold.row], Next(staleAfter, w, step).rows[hold.row];
    assert row'.config == row.config && row'.zone == row.zone && row'.nextRunAt == step.next;
    if RecordsEdited(w, step) {
      FiresAtIff(row.config, row.zone, step.next);
    } else {
      assert IsNextRun(row.config, row.zone, hold.since, step.next);
    }
  }

  lemma OthersOwnNext(staleAfter: int, w: Cluster, step: Step, id: Id)
    requires AllOwnNext(w) && Enabled(staleAfter, w, step) && id in Next(staleAfter, w, step).rows
    requires !(step.Finish? && id == w.holds[step.h].row)
    ensures OwnNext(Next(staleAfter, w, step).rows[id])
  {
    hide IsNextRun;
    var row := Next(staleAfter, w, step).rows[id];
    if id in w.rows {
      assert OwnNext(w.rows[id]);
    }
    if (step.Edit? || step.Create?) && id == step.row {
      assert IsNextRun(row.config, row.zone, step.reference, row.nextRunAt);
    }
  }

  /**
   Every step keeps the stored next runs those of the rows' own schedules, but a record of a row
   whose schedule was edited since it was claimed: that one does exactly when the new schedule fires
   at the instant of the old schedule's next run.
   */
  lemma OwnNextKeptIff(staleAfter: int, w: Cluster, step: Step)
    requires AllOwnNext(w) && Enabled(staleAfter, w, step) && OrdinaryZone(w, step)
    ensures AllOwnNext(Next(staleAfter, w, step)) <==> Fits(w, step)
  {
    var w' := Next(staleAfter, w, step);
    forall id | id in w'.rows && !(step.Finish? && id == w.holds[step.h].row)
      ensures OwnNext(w'.rows[id])
    {
      OthersOwnNext(staleAfter, w, step, id);
    }
    if step.Finish? && w.holds[step.h].row in w.rows {
      RecordOwnNextIff(staleAfter, w, step);
    }
    hide OwnNext, IsNextRun, Calculator.FiresAt;
  }

  // ---- whole runs ----

  ghost predicate AllFit(staleAfter: int, w: Cluster, steps: seq<Step>)
    requires Legal(staleAfter, w, steps)
    decreases |steps|
  {
    steps == [] || (Fits(w, steps[0]) && AllFit(staleAfter, Next(staleAfter, w, steps[0]), steps[1..]))
  }

  ghost predicate AllOrdinary(staleAfter: int, w: Cluster, steps: seq<Step>)
    requires Legal(staleAfter, w, steps)
    decreases |steps|
  {
    steps == [] || (OrdinaryZone(w, steps[0]) && AllOrdinary(staleAfter, Next(staleAfter, w, steps[0]), steps[1..]))
  }

  /** At every point of the run, every row's next run is one of its own schedule. */
  ghost predicate AlwaysOwnNext(staleAfter: int, w: Cluster, steps: seq<Step>)
    requires Legal(staleAfter, w, steps)
    decreases |steps|
  {
    AllOwnNext(w) && (steps == [] || AlwaysOwnNext(staleAfter, Next(staleAfter, w, steps[0]), steps[1..]))
  }

  lemma {:induction false} OwnNextFromIff(staleAfter: int, w: Cluster, steps: seq<Step>)
    requires AllOwnNext(w) && Legal(staleAfter, w, steps) && AllOrdinary(staleAfter, w, steps)
    ensures AlwaysOwnNext(staleAfter, w, steps) <==> AllFit(staleAfter, w, steps)
    ensures AllFit(staleAfter, w, steps) ==> AllOwnNext(After(staleAfter, w, steps))
    decreases |steps|
  {
    hide Enabled, Next, AllOwnNext, Fits, OrdinaryZone;
    if steps != [] {
      OwnNextKeptIff(staleAfter, w, steps[0]);
      if AllOwnNext(Next(staleAfter, w, steps[0])) {
        OwnNextFromIff(staleAfter, Next(staleAfter, w, steps[0]), steps[1..]);
      }
    }
  }

  /**
   Over any run, whatever is claimed, crashes or comes late: every row's next run is one of its own
   schedule at every point if and only if each record of a row edited meanwhile fits the new schedule.
   */
  lemma OwnNextThroughoutIff(staleAfter: int, clock: int, steps: seq<Step>)
    requires Legal(staleAfter, Empty(clock), steps) && AllOrdinary(staleAfter, Empty(clock), steps)
    ensures AlwaysOwnNext(staleAfter, Empty(clock), steps) <==> AllFit(staleAfter, Empty(clock), steps)
    ensures AllFit(staleAfter, Empty(clock), steps) ==> AllOwnNext(After(staleAfter, Empty(clock), steps))
  {
    OwnNextFromIff(staleAfter, Empty(clock), steps);
  }
}
