/**
 Any number of scheduler workers over one table, with crashes and edits from outside
 (backend/app/scheduling/store.py:171-221, backend/app/scheduling/worker.py:79-184). A claim of a
 batch is a claim of each of its rows at the same reference; steps of different workers interleave freely.
 */
module LeaseProtocol {
  import opened Common
  import opened Schedules
  import Calculator
  import Zones

  /** A worker's hold on one row: the moment it claimed it for, the occurrence it runs, and the schedule as it was. */
  datatype Hold = Hold(row: Id, since: int, occurrence: int, config: Calculator.ScheduleConfig, zone: Zones.Zone)

  type HoldId = nat

  datatype Cluster = Cluster(clock: int, rows: Rows, holds: map<HoldId, Hold>, finished: map<Id, seq<int>>)

  datatype Step =
    | Tick(to: int)
    | Claim(h: HoldId, row: Id, reference: int)
    | Finish(h: HoldId, result: RunResult, next: int)
    | Crash(h: HoldId)
    | Create(row: Id, contents: Row, reference: int)
    | Edit(row: Id, config: Calculator.ScheduleConfig, zone: Zones.Zone, reference: int, next: int)
    | Switch(row: Id, enabled: bool)

  /** The occurrences of a row whose run was recorded, in the order they were. */
  function FinishedOf(w: Cluster, id: Id): seq<int>
  {
    if id in w.finished then w.finished[id] else []
  }

  /**
   What the code guarantees of a step: claims only of due rows, and next runs that the calculator
   gave for a clock reading taken before, whether a worker, a creation or an edit stores them.
   */
  ghost predicate Enabled(staleAfter: int, w: Cluster, step: Step)
  {
    match step
    case Tick(to) => w.clock <= to
    case Claim(h, id, reference) => h !in w.holds && id in w.rows && reference <= w.clock && Due(w.rows[id], reference, staleAfter)
    case Finish(h, _, next) => h in w.holds && IsNextRun(w.holds[h].config, w.holds[h].zone, w.holds[h].since, next)
    case Crash(h) => h in w.holds
    case Create(id, row, reference) =>
      id !in w.rows && FinishedOf(w, id) == [] && row.claimedAt.None? && reference <= w.clock
      && IsNextRun(row.config, row.zone, reference, row.nextRunAt)
    case Edit(id, config, zone, reference, next) => id in w.rows && reference <= w.clock && IsNextRun(config, zone, reference, next)
    case Switch(id, _) => id in w.rows
  }

  ghost function Next(staleAfter: int, w: Cluster, step: Step): Cluster
    requires Enabled(staleAfter, w, step)
  {
    match step
    case Tick(to) => w.(clock := to)
    case Claim(h, id, reference) =>
      var row := w.rows[id];
      w.(rows := w.rows[id := row.(claimedAt := Some(reference))],
         holds := w.holds[h := Hold(id, reference, row.nextRunAt, row.config, row.zone)])
    case Finish(h, result, next) =>
      var hold := w.holds[h];
      w.(rows := if hold.row in w.rows then w.rows[hold.row := Recorded(w.rows[hold.row], hold.since, result, next)] else w.rows,
         holds := w.holds - {h},
         finished := w.finished[hold.row := FinishedOf(w, hold.row) + [hold.occurrence]])
    case Crash(h) => w.(holds := w.holds - {h})
    case Create(id, row, _) => w.(rows := w.rows[id := row])
    case Edit(id, config, zone, _, next) => w.(rows := w.rows[id := w.rows[id].(config := config, zone := zone, nextRunAt := next)])
    case Switch(id, enabled) => w.(rows := w.rows[id := w.rows[id].(enabled := enabled)])
  }

  /** A worker that has not crashed is done within `staleAfter` of the moment it claimed for: all the lease needs. */
  ghost predicate Prompt(staleAfter: int, w: Cluster, step: Step)
  {
    match step
    case Tick(to) => forall h :: h in w.holds ==> to <= w.holds[h].since + staleAfter
    case Claim(_, _, reference) => w.clock <= reference + staleAfter
    case _ => true
  }

  /** Something of the row was finished whose occurrence lies after this moment. */
  predicate FinishedPast(w: Cluster, id: Id, moment: int)
  {
    var done := FinishedOf(w, id);
    done != [] && done[|done| - 1] > moment
  }

  /**
   The zones of the schedules whose next run is computed. Changes at least a day apart that skip at
   most a day are asked for only when an edit read the clock before an occurrence since finished.
   */
  ghost predicate Separated(w: Cluster, step: Step)
  {
    match step
    case Finish(h, _, _) => h in w.holds ==> Zones.WellSeparated(w.holds[h].zone)
    case Edit(id, _, zone, reference, _) =>
      && Zones.WellSeparated(zone)
      && (FinishedPast(w, id, reference) ==>
          Zones.SkipsAtMost(zone, Calculator.MICROS_PER_DAY) && Zones.ChangesApart(zone, Calculator.MICROS_PER_DAY))
    case _ => true
  }

  /**
   The next run about to be stored is a new one. For a worker: no firing up to the one it has run
   comes round again. For an edit: no firing the new schedule has ahead comes, as an instant, by the
   last one finished.
   */
  ghost predicate Ahead(w: Cluster, step: Step)
  {
    match step
    case Finish(h, _, _) =>
      h in w.holds ==> var hold := w.holds[h]; !Calculator.FiresAgainBy(hold.config, hold.zone, hold.since, hold.occurrence)
    case Edit(id, config, zone, reference, _) =>
      var done := FinishedOf(w, id);
      done == [] || !Calculator.FiresBy(config, zone, reference, done[|done| - 1])
    case _ => true
  }

  // ---- the invariants ----

  /** A live hold is the one its row's claim names, and still in time. */
  predicate Owns(staleAfter: int, w: Cluster, h: HoldId)
    requires h in w.holds
  {
    var hold := w.holds[h];
    && hold.row in w.rows && w.rows[hold.row].claimedAt == Some(hold.since)
    && hold.occurrence <= hold.since <= w.clock <= hold.since + staleAfter
  }

  ghost predicate AllOwn(staleAfter: int, w: Cluster)
  {
    forall h :: h in w.holds ==> Owns(staleAfter, w, h)
  }

  ghost predicate OneHolder(w: Cluster)
  {
    forall g, h :: g in w.holds && h in w.holds && w.holds[g].row == w.holds[h].row ==> g == h
  }

  /** What the lease keeps. */
  ghost predicate Leased(staleAfter: int, w: Cluster)
  {
    AllOwn(staleAfter, w) && OneHolder(w)
  }

  predicate Increasing(s: seq<int>)
  {
    forall i, j :: 0 <= i < j < |s| ==> s[i] < s[j]
  }

  predicate Below(s: seq<int>, bound: int)
  {
    forall i :: 0 <= i < |s| ==> s[i] < bound
  }

  /** What was finished is in order, and before whatever the row is to run next. */
  predicate InOrder(w: Cluster, id: Id)
  {
    var done := FinishedOf(w, id);
    Increasing(done) && (id in w.rows ==> Below(done, w.rows[id].nextRunAt))
  }

  ghost predicate AllInOrder(w: Cluster)
  {
    forall id :: InOrder(w, id)
  }

  /** The occurrence in hand comes after every finished one. */
  ghost predicate HoldsAhead(w: Cluster)
  {
    forall h :: h in w.holds ==> Below(FinishedOf(w, w.holds[h].row), w.holds[h].occurrence)
  }

  // ---- the lease, from promptness alone ----

  /** A row somebody holds is not due to anybody else. */
  lemma HeldIsNotDue(staleAfter: int, w: Cluster, h: HoldId, reference: int)
    requires AllOwn(staleAfter, w) && h in w.holds && reference <= w.clock
    ensures w.holds[h].row in w.rows && !Due(w.rows[w.holds[h].row], reference, staleAfter)
  {
    assert Owns(staleAfter, w, h);
  }

  lemma ClaimKeepsLease(staleAfter: int, w: Cluster, h: HoldId, id: Id, reference: int)
    requires Leased(staleAfter, w) && Enabled(staleAfter, w, Claim(h, id, reference)) && Prompt(staleAfter, w, Claim(h, id, reference))
    ensures Leased(staleAfter, Next(staleAfter, w, Claim(h, id, reference)))
  {
    var w' := Next(staleAfter, w, Claim(h, id, reference));
    forall g | g in w.holds
      ensures w.holds[g].row != id && Owns(staleAfter, w', g)
    {
      HeldIsNotDue(staleAfter, w, g, reference);
      assert Owns(staleAfter, w, g);
    }
    assert Owns(staleAfter, w', h);
    hide Owns;
  }

  /** Every step of a prompt world keeps the lease: whatever is edited, created, recorded or crashes. */
  lemma LeaseKept(staleAfter: int, w: Cluster, step: Step)
    requires Leased(staleAfter, w) && Enabled(staleAfter, w, step) && Prompt(staleAfter, w, step)
    ensures Leased(staleAfter, Next(staleAfter, w, step))
  {
    hide IsNextRun, Recorded, Due;
    if step.Claim? {
      ClaimKeepsLease(staleAfter, w, step.h, step.row, step.reference);
    } else {
      var w' := Next(staleAfter, w, step);
      forall g | g in w'.holds
        ensures Owns(staleAfter, w', g)
      {
        assert Owns(staleAfter, w, g);
        RecordedClears(w, step, g);
      }
      hide Owns;
    }
  }

  lemma RecordedClears(w: Cluster, step: Step, g: HoldId)
    requires OneHolder(w) && g in w.holds
    ensures step.Finish? && step.h in w.holds && g != step.h ==> w.holds[g].row != w.holds[step.h].row
  {
  }

  // ---- the order of what is finished ----

  lemma HoldsStayAhead(staleAfter: int, w: Cluster, step: Step)
    requires Leased(staleAfter, w) && AllInOrder(w) && HoldsAhead(w) && Enabled(staleAfter, w, step)
    ensures HoldsAhead(Next(staleAfter, w, step))
  {
    hide IsNextRun, Recorded, Due, Increasing, Below;
    var w' := Next(staleAfter, w, step);
    forall g | g in w'.holds
      ensures Below(FinishedOf(w', w'.holds[g].row), w'.holds[g].occurrence)
    {
      if step.Claim? && g == step.h {
        assert InOrder(w, step.row);
      } else {
        RecordedClears(w, step, g);
      }
    }
  }

  lemma Appended(done: seq<int>, occurrence: int, bound: int)
    requires Increasing(done) && Below(done, occurrence)
    ensures Increasing(done + [occurrence])
    ensures Below(done + [occurrence], bound) <==> occurrence < bound
  {
    assert (done + [occurrence])[|done|] == occurrence;
  }

  lemma NextLaterIff(config: Calculator.ScheduleConfig, zone: Zones.Zone, since: int, moment: int, next: int)
    requires IsNextRun(config, zone, since, next) && Zones.WellSeparated(zone) && moment <= since
    ensures next > moment <==> !Calculator.FiresAgainBy(config, zone, since, moment)
  {
    hide Calculator.IsNextFiring, Calculator.FiresAgainBy, Zones.WellSeparated;
    var date :| Calculator.IsNextFiring(config, Zones.LocalOf(zone, since), date)
      && next == Zones.UtcOf(zone, Calculator.WallTime(date, Calculator.TimeOfDay(config)));
    Calculator.LaterThanIff(config, zone, since, moment, date);
  }

  /**
   A record keeps its row's finished occurrences in order, and before the next run it stores, exactly
   when no firing up to the one just run comes round again after the moment claimed for: a condition
   on the schedule, the zone and the hold that can be looked at before the record.
   */
  lemma FinishKeepsOrderIff(staleAfter: int, w: Cluster, h: HoldId, result: RunResult, next: int)
    requires Leased(staleAfter, w) && AllInOrder(w) && HoldsAhead(w)
    requires Enabled(staleAfter, w, Finish(h, result, next)) && Zones.WellSeparated(w.holds[h].zone)
    ensures var hold := w.holds[h];
      AllInOrder(Next(staleAfter, w, Finish(h, result, next))) <==>
      !Calculator.FiresAgainBy(hold.config, hold.zone, hold.since, hold.occurrence)
  {
    var hold, w' := w.holds[h], Next(staleAfter, w, Finish(h, result, next));
    assert Owns(staleAfter, w, h);
    NextLaterIff(hold.config, hold.zone, hold.since, hold.occurrence, next);
    assert w'.rows[hold.row].nextRunAt == next;
    hide IsNextRun, Recorded;
    hide Calculator.FiresAgainBy, Zones.WellSeparated;
    assert InOrder(w, hold.row);
    Appended(FinishedOf(w, hold.row), hold.occurrence, next);
    hide Increasing, Below, Owns;
    forall id | id != hold.row
      ensures InOrder(w', id)
    {
      assert InOrder(w, id);
    }
    assert InOrder(w', hold.row) <==> next > hold.occurrence;
    hide InOrder;
  }

  lemma LastBounds(done: seq<int>, bound: int)
    requires Increasing(done) && done != []
    ensures Below(done, bound) <==> done[|done| - 1] < bound
  {
  }

  lemma NextLaterThanAnyIff(config: Calculator.ScheduleConfig, zone: Zones.Zone, since: int, moment: int, next: int)
    requires IsNextRun(config, zone, since, next) && Zones.WellSeparated(zone)
    requires moment > since ==> Zones.SkipsAtMost(zone, Calculator.MICROS_PER_DAY) && Zones.ChangesApart(zone, Calculator.MICROS_PER_DAY)
    ensures next > moment <==> !Calculator.FiresBy(config, zone, since, moment)
  {
    hide Calculator.IsNextFiring, Calculator.FiresBy, Zones.WellSeparated, Zones.SkipsAtMost, Zones.ChangesApart;
    var date :| Calculator.IsNextFiring(config, Zones.LocalOf(zone, since), date)
      && next == Zones.UtcOf(zone, Calculator.WallTime(date, Calculator.TimeOfDay(config)));
    Calculator.LaterThanAnyIff(config, zone, since, moment, date);
  }

  lemma EditAheadIff(staleAfter: int, w: Cluster, step: Step)
    requires step.Edit? && Enabled(staleAfter, w, step) && Separated(w, step) && Increasing(FinishedOf(w, step.row))
    ensures Below(FinishedOf(w, step.row), step.next) <==> Ahead(w, step)
  {
    hide IsNextRun;
    hide Calculator.FiresBy, Zones.WellSeparated, Zones.SkipsAtMost, Zones.ChangesApart;
    var done := FinishedOf(w, step.row);
    if done != [] {
      LastBounds(done, step.next);
      NextLaterThanAnyIff(step.config, step.zone, step.reference, done[|done| - 1], step.next);
    }
  }

  /**
   An edit keeps the order exactly when the schedule it brings, read at the edit's own clock reading,
   has no firing ahead that comes, as an instant, by the last occurrence finished.
   */
  lemma EditKeepsOrderIff(staleAfter: int, w: Cluster, step: Step)
    requires AllInOrder(w) && step.Edit? && Enabled(staleAfter, w, step) && Separated(w, step)
    ensures AllInOrder(Next(staleAfter, w, step)) <==> Ahead(w, step)
  {
    hide IsNextRun, Increasing, Below, Ahead, Separated;
    var w' := Next(staleAfter, w, step);
    assert InOrder(w, step.row);
    EditAheadIff(staleAfter, w, step);
    assert InOrder(w', step.row) <==> Ahead(w, step);
    forall id | id != step.row
      ensures InOrder(w', id)
    {
      assert InOrder(w, id);
    }
    hide InOrder;
  }

  lemma OtherStepsKeepOrder(staleAfter: int, w: Cluster, step: Step)
    requires AllInOrder(w) && Enabled(staleAfter, w, step) && !step.Finish? && !step.Edit?
    ensures AllInOrder(Next(staleAfter, w, step))
  {
    hide IsNextRun, Due, Increasing;
    var w' := Next(staleAfter, w, step);
    forall id
      ensures InOrder(w', id)
    {
      assert InOrder(w, id);
    }
  }

  lemma OrderKeptIff(staleAfter: int, w: Cluster, step: Step)
    requires Leased(staleAfter, w) && AllInOrder(w) && HoldsAhead(w) && Enabled(staleAfter, w, step) && Separated(w, step)
    ensures AllInOrder(Next(staleAfter, w, step)) <==> Ahead(w, step)
  {
    hide AllInOrder, HoldsAhead, Leased, Next;
    match step
    case Finish(h, result, next) => FinishKeepsOrderIff(staleAfter, w, h, result, next);
    case Edit(_, _, _, _, _) => EditKeepsOrderIff(staleAfter, w, step);
    case _ => OtherStepsKeepOrder(staleAfter, w, step);
  }

  // ---- whole runs ----

  ghost predicate Legal(staleAfter: int, w: Cluster, steps: seq<Step>)
    decreases |steps|
  {
    steps == [] || (Enabled(staleAfter, w, steps[0]) && Legal(staleAfter, Next(staleAfter, w, steps[0]), steps[1..]))
  }

  ghost function After(staleAfter: int, w: Cluster, steps: seq<Step>): Cluster
    requires Legal(staleAfter, w, steps)
    decreases |steps|
  {
    if steps == [] then w else After(staleAfter, Next(staleAfter, w, steps[0]), steps[1..])
  }

  ghost predicate AllPrompt(staleAfter: int, w: Cluster, steps: seq<Step>)
    requires Legal(staleAfter, w, steps)
    decreases |steps|
  {
    steps == [] || (Prompt(staleAfter, w, steps[0]) && AllPrompt(staleAfter, Next(staleAfter, w, steps[0]), steps[1..]))
  }

  ghost predicate AllSeparated(staleAfter: int, w: Cluster, steps: seq<Step>)
    requires Legal(staleAfter, w, steps)
    decreases |steps|
  {
    steps == [] || (Separated(w, steps[0]) && AllSeparated(staleAfter, Next(staleAfter, w, steps[0]), steps[1..]))
  }

  ghost predicate AllAhead(staleAfter: int, w: Cluster, steps: seq<Step>)
    requires Legal(staleAfter, w, steps)
    decreases |steps|
  {
    steps == [] || (Ahead(w, steps[0]) && AllAhead(staleAfter, Next(staleAfter, w, steps[0]), steps[1..]))
  }

  /** At every point of the run, what was finished is in order and before what is to run next. */
  ghost predicate AlwaysInOrder(staleAfter: int, w: Cluster, steps: seq<Step>)
    requires Legal(staleAfter, w, steps)
    decreases |steps|
  {
    AllInOrder(w) && (steps == [] || AlwaysInOrder(staleAfter, Next(staleAfter, w, steps[0]), steps[1..]))
  }

  lemma {:induction false} LeaseKeptThroughout(staleAfter: int, w: Cluster, steps: seq<Step>)
    requires Leased(staleAfter, w) && Legal(staleAfter, w, steps) && AllPrompt(staleAfter, w, steps)
    ensures Leased(staleAfter, After(staleAfter, w, steps))
    decreases |steps|
  {
    if steps != [] {
      hide Enabled, Prompt, Next, Leased;
      LeaseKept(staleAfter, w, steps[0]);
      LeaseKeptThroughout(staleAfter, Next(staleAfter, w, steps[0]), steps[1..]);
    }
  }

  lemma {:induction false} OrderThroughoutIff(staleAfter: int, w: Cluster, steps: seq<Step>)
    requires Leased(staleAfter, w) && AllInOrder(w) && HoldsAhead(w)
    requires Legal(staleAfter, w, steps) && AllPrompt(staleAfter, w, steps) && AllSeparated(staleAfter, w, steps)
    ensures AlwaysInOrder(staleAfter, w, steps) <==> AllAhead(staleAfter, w, steps)
    ensures AlwaysInOrder(staleAfter, w, steps) ==> AllInOrder(After(staleAfter, w, steps))
    decreases |steps|
  {
    if steps != [] {
      hide Enabled, Prompt, Separated, Ahead, Next, Leased, AllInOrder, HoldsAhead;
      var w' := Next(staleAfter, w, steps[0]);
      LeaseKept(staleAfter, w, steps[0]);
      HoldsStayAhead(staleAfter, w, steps[0]);
      OrderKeptIff(staleAfter, w, steps[0]);
      if AllInOrder(w') {
        OrderThroughoutIff(staleAfter, w', steps[1..]);
      } else {
        NotInOrderNow(staleAfter, w', steps[1..]);
      }
    }
  }

  lemma NotInOrderNow(staleAfter: int, w: Cluster, steps: seq<Step>)
    requires Legal(staleAfter, w, steps) && !AllInOrder(w)
    ensures !AlwaysInOrder(staleAfter, w, steps)
  {
    hide AllInOrder;
  }

  function Empty(clock: int): Cluster
  {
    Cluster(clock, map[], map[], map[])
  }

  // ---- what it promises ----

  /** If live workers are prompt, no two hold the same schedule at once, whatever is edited, created or recorded and whoever crashes. */
  lemma NeverTwoHolders(staleAfter: int, clock: int, steps: seq<Step>, g: HoldId, h: HoldId)
    requires Legal(staleAfter, Empty(clock), steps) && AllPrompt(staleAfter, Empty(clock), steps)
    requires var w := After(staleAfter, Empty(clock), steps); g in w.holds && h in w.holds && w.holds[g].row == w.holds[h].row
    ensures g == h
  {
    LeaseKeptThroughout(staleAfter, Empty(clock), steps);
    hide After, Legal, AllPrompt, AllOwn;
  }

  /**
   Over any run of prompt workers, with any crashes, reclaims and edits: the finished occurrences of
   every row stay in order and before its next run exactly when no record or edit brings back a
   firing already run.
   */
  lemma FinishedInOrderIff(staleAfter: int, clock: int, steps: seq<Step>)
    requires Legal(staleAfter, Empty(clock), steps) && AllPrompt(staleAfter, Empty(clock), steps)
    requires AllSeparated(staleAfter, Empty(clock), steps)
    ensures AlwaysInOrder(staleAfter, Empty(clock), steps) <==> AllAhead(staleAfter, Empty(clock), steps)
  {
    OrderThroughoutIff(staleAfter, Empty(clock), steps);
  }

  /** Then the occurrences recorded as finished for a row strictly increase: none is finished twice, even after a crash and a second claim. */
  lemma NoneFinishedTwice(staleAfter: int, clock: int, steps: seq<Step>, id: Id)
    requires Legal(staleAfter, Empty(clock), steps) && AllPrompt(staleAfter, Empty(clock), steps)
    requires AllSeparated(staleAfter, Empty(clock), steps) && AllAhead(staleAfter, Empty(clock), steps)
    ensures var w := After(staleAfter, Empty(clock), steps);
      && Increasing(FinishedOf(w, id))
      && (id in w.rows ==> Below(FinishedOf(w, id), w.rows[id].nextRunAt))
  {
    OrderThroughoutIff(staleAfter, Empty(clock), steps);
    assert InOrder(After(staleAfter, Empty(clock), steps), id);
    hide After, Legal, AllPrompt;
  }

  /** A crashed worker's row comes back: once the claim is stale the row is due again, at the same occurrence. */
  lemma CrashedRowIsDueAgainIff(staleAfter: int, w: Cluster, h: HoldId, reference: int)
    requires AllOwn(staleAfter, w) && h in w.holds
    ensures var hold, w' := w.holds[h], Next(staleAfter, w, Crash(h));
      && (w'.rows[hold.row] == w.rows[hold.row])
      && (Due(w'.rows[hold.row], reference, staleAfter) <==>
          w.rows[hold.row].enabled && w.rows[hold.row].nextRunAt <= reference && reference > hold.since + staleAfter)
  {
    assert Owns(staleAfter, w, h);
  }

  // ---- runs one after another ----

  lemma {:induction false} Join(staleAfter: int, w: Cluster, first: seq<Step>, rest: seq<Step>)
    requires Legal(staleAfter, w, first) && Legal(staleAfter, After(staleAfter, w, first), rest)
    ensures Legal(staleAfter, w, first + rest)
    ensures After(staleAfter, w, first + rest) == After(staleAfter, After(staleAfter, w, first), rest)
    ensures AllPrompt(staleAfter, w, first) && AllPrompt(staleAfter, After(staleAfter, w, first), rest) ==> AllPrompt(staleAfter, w, first + rest)
    ensures AllSeparated(staleAfter, w, first) && AllSeparated(staleAfter, After(staleAfter, w, first), rest) ==>
      AllSeparated(staleAfter, w, first + rest)
    decreases |first|
  {
    hide Enabled, Next, Prompt, Separated;
    if first == [] {
      assert first + rest == rest;
    } else {
      assert (first + rest)[1..] == first[1..] + rest;
      Join(staleAfter, Next(staleAfter, w, first[0]), first[1..], rest);
    }
  }

  lemma OneStep(staleAfter: int, w: Cluster, step: Step)
    requires Enabled(staleAfter, w, step)
    ensures Legal(staleAfter, w, [step]) && After(staleAfter, w, [step]) == Next(staleAfter, w, step)
    ensures AllPrompt(staleAfter, w, [step]) <==> Prompt(staleAfter, w, step)
    ensures AllSeparated(staleAfter, w, [step]) <==> Separated(w, step)
  {
    hide Enabled, Next, Prompt, Separated;
    assert [step][1..] == [];
  }

  lemma Extend(staleAfter: int, w: Cluster, steps: seq<Step>, step: Step)
    requires Legal(staleAfter, w, steps) && Enabled(staleAfter, After(staleAfter, w, steps), step)
    ensures Legal(staleAfter, w, steps + [step])
    ensures After(staleAfter, w, steps + [step]) == Next(staleAfter, After(staleAfter, w, steps), step)
    ensures AllPrompt(staleAfter, w, steps) && Prompt(staleAfter, After(staleAfter, w, steps), step) ==> AllPrompt(staleAfter, w, steps + [step])
    ensures AllSeparated(staleAfter, w, steps) && Separated(After(staleAfter, w, steps), step) ==> AllSeparated(staleAfter, w, steps + [step])
  {
    hide Enabled, Next, Prompt, Separated, Legal, After, AllPrompt, AllSeparated;
    OneStep(staleAfter, After(staleAfter, w, steps), step);
    Join(staleAfter, w, steps, [step]);
  }
}
