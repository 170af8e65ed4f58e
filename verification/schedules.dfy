/**
 Due schedules and the worker that runs them (backend/app/scheduling/store.py and
 backend/app/scheduling/worker.py). Each store call is one transaction, so one step on the rows.
 */
module Schedules {
  import opened Common
  import Calculator
  import Retry
  import Zones

  type Id = nat

  datatype RunResult = Completed | Failed | Skipped

  datatype Row = Row(
    workspace: Id, report: Id, config: Calculator.ScheduleConfig, zone: Zones.Zone, enabled: bool, nextRunAt: int,
    claimedAt: Option<int>, failures: nat, lastRunAt: Option<int>, lastResult: Option<RunResult>)

  type Rows = map<Id, Row>

  // ---- the store ----

  predicate Due(row: Row, now: int, staleAfter: int)
  {
    row.enabled && row.nextRunAt <= now && (row.claimedAt.None? || row.claimedAt.value < now - staleAfter)
  }

  /** A batch is the earliest due rows, in order, as many as asked for or all there are. */
  ghost predicate EarliestBatch(rows: Rows, claimed: seq<Id>, now: int, staleAfter: int, limit: nat)
  {
    && (forall i :: 0 <= i < |claimed| ==> claimed[i] in rows && Due(rows[claimed[i]], now, staleAfter))
    && (forall i, j :: 0 <= i < j < |claimed| ==> claimed[i] != claimed[j] && rows[claimed[i]].nextRunAt <= rows[claimed[j]].nextRunAt)
    && |claimed| <= limit
    && (forall id :: id in rows && Due(rows[id], now, staleAfter) && id !in claimed ==>
        |claimed| == limit && forall i :: 0 <= i < |claimed| ==> rows[claimed[i]].nextRunAt <= rows[id].nextRunAt)
  }

  function Stamped(rows: Rows, claimed: seq<Id>, now: int): Rows
  {
    map id | id in rows :: if id in claimed then rows[id].(claimedAt := Some(now)) else rows[id]
  }

  function Recorded(row: Row, ranAt: int, result: RunResult, next: int): Row
  {
    row.(lastRunAt := Some(ranAt), lastResult := Some(result), claimedAt := None, nextRunAt := next,
         failures := match result case Completed => 0 case Failed => row.failures + 1 case Skipped => row.failures)
  }

  lemma EarliestExists(rows: Rows, ids: set<Id>)
    requires ids != {} && ids <= rows.Keys
    ensures exists id :: id in ids && forall other :: other in ids ==> rows[id].nextRunAt <= rows[other].nextRunAt
  {
    var some :| some in ids;
    var rest := ids - {some};
    if rest != {} {
      EarliestExists(rows, rest);
      var id :| id in rest && forall other :: other in rest ==> rows[id].nextRunAt <= rows[other].nextRunAt;
      var least := if rows[some].nextRunAt <= rows[id].nextRunAt then some else id;
      assert least in ids && forall other :: other in ids ==> rows[least].nextRunAt <= rows[other].nextRunAt;
    } else {
      assert ids == rest + {some};
    }
  }

  /** The rows picked so far are due, in order, and no later than any candidate left. */
  ghost predicate Picked(rows: Rows, claimed: seq<Id>, candidates: set<Id>, now: int, staleAfter: int, limit: nat)
  {
    && |claimed| <= limit && candidates <= rows.Keys
    && (forall i :: 0 <= i < |claimed| ==> claimed[i] in rows && Due(rows[claimed[i]], now, staleAfter) && claimed[i] !in candidates)
    && (forall id :: id in rows && Due(rows[id], now, staleAfter) ==> id in candidates || id in claimed)
    && (forall id :: id in candidates ==> Due(rows[id], now, staleAfter))
    && (forall i, j :: 0 <= i < j < |claimed| ==> claimed[i] != claimed[j] && rows[claimed[i]].nextRunAt <= rows[claimed[j]].nextRunAt)
    && (forall i, id :: 0 <= i < |claimed| && id in candidates ==> rows[claimed[i]].nextRunAt <= rows[id].nextRunAt)
  }

  lemma PickStep(rows: Rows, claimed: seq<Id>, candidates: set<Id>, id: Id, now: int, staleAfter: int, limit: nat)
    requires Picked(rows, claimed, candidates, now, staleAfter, limit) && |claimed| < limit
    requires id in candidates && forall other :: other in candidates ==> rows[id].nextRunAt <= rows[other].nextRunAt
    ensures Picked(rows, claimed + [id], candidates - {id}, now, staleAfter, limit)
  {
    hide Due;
    var more := claimed + [id];
    assert forall other :: other in claimed ==> other in more;
    assert id in more;
  }

  lemma PickDone(rows: Rows, claimed: seq<Id>, candidates: set<Id>, now: int, staleAfter: int, limit: nat)
    requires Picked(rows, claimed, candidates, now, staleAfter, limit) && (|claimed| == limit || candidates == {})
    ensures EarliestBatch(rows, claimed, now, staleAfter, limit)
  {
    hide Due;
  }

  class ScheduledReportStore {
    var rows: Rows

    constructor ()
      ensures rows == map[]
    {
      rows := map[];
    }

    method ClaimDue(now: int, staleAfter: int, limit: nat) returns (claimed: seq<Id>)
      modifies this
      ensures EarliestBatch(old(rows), claimed, now, staleAfter, limit)
      ensures rows == Stamped(old(rows), claimed, now)
    {
      var candidates := set id | id in rows && Due(rows[id], now, staleAfter);
      claimed := [];
      hide Due;
      while |claimed| < limit && candidates != {}
        invariant rows == old(rows)
        invariant Picked(rows, claimed, candidates, now, staleAfter, limit)
        decreases limit - |claimed|
      {
        EarliestExists(rows, candidates);
        var id :| id in candidates && forall other :: other in candidates ==> rows[id].nextRunAt <= rows[other].nextRunAt;
        PickStep(rows, claimed, candidates, id, now, staleAfter, limit);
        claimed := claimed + [id];
        candidates := candidates - {id};
      }
      PickDone(rows, claimed, candidates, now, staleAfter, limit);
      rows := Stamped(rows, claimed, now);
    }

    /** Whoever claimed the row, the claim is cleared. */
    method RecordRunResult(workspace: Id, id: Id, ranAt: int, result: RunResult, next: Option<int>)
      modifies this
      ensures rows == if id in old(rows) && old(rows)[id].workspace == workspace
                      then old(rows)[id := Recorded(old(rows)[id], ranAt, result, if next.Some? then next.value else old(rows)[id].nextRunAt)]
                      else old(rows)
    {
      if id !in rows || rows[id].workspace != workspace {
        return;
      }
      var row := rows[id].(lastRunAt := Some(ranAt), lastResult := Some(result));
      if result == Completed {
        row := row.(failures := 0);
      } else if result == Failed {
        row := row.(failures := row.failures + 1);
      }
      row := row.(claimedAt := None);
      if next.Some? {
        row := row.(nextRunAt := next.value);
      }
      rows := rows[id := row];
    }
  }

  // ---- the worker ----

  /** The report a schedule runs: gone, archived, or active. */
  datatype Definition = Missing | Archived | Active

  /** What the world answers: the report's definition, and how each attempt to run it turns out. */
  datatype World = World(definitions: Id -> Definition, executions: Id -> Retry.Attempts)

  /** What is written down about one claimed schedule: whether it completed, and how many retries it took. */
  datatype Execution = Execution(schedule: Id, completed: bool, retries: nat)

  class SavedReports {
    var executions: seq<Execution>

    constructor ()
      ensures executions == []
    {
      executions := [];
    }

    method Write(e: Execution)
      modifies this
      ensures executions == old(executions) + [e]
    {
      executions := executions + [e];
    }
  }

  const SOURCE := "scheduled_report"

  function ResultOf(policy: Retry.RetryPolicy, world: World, id: Id, report: Id): RunResult
  {
    if world.definitions(report) != Active then Skipped
    else if Retry.Succeeds(policy, SOURCE, world.executions(id)) then Completed
    else Failed
  }

  function ExecutionsOf(policy: Retry.RetryPolicy, world: World, id: Id, report: Id): (written: seq<Execution>)
  {
    if world.definitions(report) != Active then []
    else [Execution(id, Retry.Succeeds(policy, SOURCE, world.executions(id)), Retry.LastAttempt(policy, SOURCE, world.executions(id), 1) - 1)]
  }

  /** The instant a schedule is next to run, as the calculator finds it from a reference. */
  ghost predicate IsNextRun(config: Calculator.ScheduleConfig, zone: Zones.Zone, after: int, next: int)
  {
    exists date :: Calculator.IsNextFiring(config, Zones.LocalOf(zone, after), date)
      && next == Zones.UtcOf(zone, Calculator.WallTime(date, Calculator.TimeOfDay(config)))
  }

  lemma NextRunUnique(config: Calculator.ScheduleConfig, zone: Zones.Zone, after: int, next: int, other: int)
    requires IsNextRun(config, zone, after, next) && IsNextRun(config, zone, after, other)
    ensures next == other
  {
    hide Calculator.IsNextFiring;
    var d :| Calculator.IsNextFiring(config, Zones.LocalOf(zone, after), d) && next == Zones.UtcOf(zone, Calculator.WallTime(d, Calculator.TimeOfDay(config)));
    var e :| Calculator.IsNextFiring(config, Zones.LocalOf(zone, after), e) && other == Zones.UtcOf(zone, Calculator.WallTime(e, Calculator.TimeOfDay(config)));
    Calculator.NextFiringUnique(config, Zones.LocalOf(zone, after), d, e);
  }

  datatype Outcome = Outcome(schedule: Id, status: RunResult)

  class SchedulerWorker {
    const schedules: ScheduledReportStore
    const savedReports: SavedReports
    const policy: Retry.RetryPolicy
    const staleAfter: int

    constructor (schedules: ScheduledReportStore, savedReports: SavedReports, policy: Retry.RetryPolicy, staleAfter: int)
      ensures this.schedules == schedules && this.savedReports == savedReports && this.policy == policy && this.staleAfter == staleAfter
    {
      this.schedules, this.savedReports, this.policy, this.staleAfter := schedules, savedReports, policy, staleAfter;
    }

    method Reschedule(id: Id, claimed: Row, now: int, result: RunResult) returns (next: int)
      requires id in schedules.rows && schedules.rows[id].workspace == claimed.workspace
      modifies schedules
      ensures IsNextRun(claimed.config, claimed.zone, now, next)
      ensures schedules.rows == old(schedules.rows)[id := Recorded(old(schedules.rows)[id], now, result, next)]
    {
      ghost var date;
      next, date := Calculator.ComputeNextRun(claimed.config, claimed.zone, now);
      assert IsNextRun(claimed.config, claimed.zone, now, next) by { hide Calculator.IsNextFiring; }
      schedules.RecordRunResult(claimed.workspace, id, now, result, Some(next));
    }

    /** One claimed schedule: skipped, completed or failed, written down at most once, and rescheduled once. */
    method RunOne(id: Id, claimed: Row, now: int, world: World) returns (outcome: Outcome, next: int)
      requires id in schedules.rows && schedules.rows[id].workspace == claimed.workspace
      modifies schedules, savedReports
      ensures outcome == Outcome(id, ResultOf(policy, world, id, claimed.report))
      ensures IsNextRun(claimed.config, claimed.zone, now, next)
      ensures schedules.rows == old(schedules.rows)[id := Recorded(old(schedules.rows)[id], now, outcome.status, next)]
      ensures savedReports.executions == old(savedReports.executions) + ExecutionsOf(policy, world, id, claimed.report)
    {
      hide IsNextRun, Recorded;
      if world.definitions(claimed.report) != Active {
        next := Reschedule(id, claimed, now, Skipped);
        return Outcome(id, Skipped), next;
      }
      var attempt, failure := Retry.CallWithRetries(policy, SOURCE, world.executions(id));
      savedReports.Write(Execution(id, failure.None?, attempt - 1));
      var result := if failure.None? then Completed else Failed;
      next := Reschedule(id, claimed, now, result);
      return Outcome(id, result), next;
    }

    /** Runs the claimed rows one after another, from the definitions the claim returned. */
    method RunBatch(claimed: seq<Id>, definitions: Rows, ghost before: Rows, now: int, world: World)
      returns (outcomes: seq<Outcome>, ghost nexts: seq<int>)
      requires definitions == Stamped(before, claimed, now)
      requires forall i, j :: 0 <= i < j < |claimed| ==> claimed[i] != claimed[j]
      requires Upto(policy, world, before, claimed, 0, schedules.rows, [], [], now)
      modifies schedules, savedReports
      ensures |outcomes| == |nexts| == |claimed|
      ensures Upto(policy, world, before, claimed, |claimed|, schedules.rows, outcomes, nexts, now)
      ensures savedReports.executions == old(savedReports.executions) + AllExecutions(policy, world, before, claimed)
    {
      hide IsNextRun, Recorded, ResultOf, ExecutionsOf, Upto, Stamped;
      outcomes, nexts := [], [];
      for i := 0 to |claimed|
        invariant |outcomes| == |nexts| == i
        invariant Upto(policy, world, before, claimed, i, schedules.rows, outcomes, nexts, now)
        invariant savedReports.executions == old(savedReports.executions) + AllExecutions(policy, world, before, claimed[..i])
      {
        var id := claimed[i];
        UptoMeans(policy, world, before, claimed, i, schedules.rows, outcomes, nexts, now);
        ghost var rows := schedules.rows;
        var outcome, next := RunOne(id, definitions[id], now, world);
        UptoStep(policy, world, before, claimed, i, rows, schedules.rows, outcomes, nexts, outcome, next, now);
        assert claimed[..i + 1][..i] == claimed[..i];
        outcomes, nexts := outcomes + [outcome], nexts + [next];
      }
      assert claimed[..|claimed|] == claimed;
    }

    /** Every row of the batch is run and recorded exactly once, in order; no other row changes. */
    method RunOnce(batchSize: nat, now: int, world: World) returns (outcomes: seq<Outcome>, ghost nexts: seq<int>)
      modifies schedules, savedReports
      ensures |nexts| == |outcomes|
      ensures EarliestBatch(old(schedules.rows), Ids(outcomes), now, staleAfter, batchSize)
      ensures BatchRecorded(policy, world, old(schedules.rows), schedules.rows, outcomes, nexts, now)
      ensures savedReports.executions == old(savedReports.executions) + AllExecutions(policy, world, old(schedules.rows), Ids(outcomes))
    {
      var claimed := schedules.ClaimDue(now, staleAfter, batchSize);
      ghost var before := old(schedules.rows);
      BatchDistinct(before, claimed, now, staleAfter, batchSize);
      NoneYet(policy, world, before, claimed, now);
      hide EarliestBatch, AllExecutions, Upto, BatchRecorded;
      outcomes, nexts := RunBatch(claimed, schedules.rows, before, now, world);
      UptoDone(policy, world, before, claimed, schedules.rows, outcomes, nexts, now);
    }
  }

  /** The first i rows of the batch are recorded, the rest of it is claimed, and no other row has changed. */
  ghost predicate Upto(
    policy: Retry.RetryPolicy, world: World, before: Rows, claimed: seq<Id>, i: nat, rows: Rows,
    outcomes: seq<Outcome>, nexts: seq<int>, now: int)
  {
    && i <= |claimed| && |outcomes| == |nexts| == i && rows.Keys == before.Keys
    && (forall k :: 0 <= k < i ==> outcomes[k].schedule == claimed[k])
    && (forall k :: 0 <= k < i ==> RowRecorded(policy, world, before, rows, outcomes[k], nexts[k], now))
    && (forall k :: i <= k < |claimed| ==> claimed[k] in before && rows[claimed[k]] == before[claimed[k]].(claimedAt := Some(now)))
    && (forall id :: id in before && id !in claimed ==> rows[id] == before[id])
  }

  lemma NoneYet(policy: Retry.RetryPolicy, world: World, before: Rows, claimed: seq<Id>, now: int)
    requires forall i :: 0 <= i < |claimed| ==> claimed[i] in before
    ensures Upto(policy, world, before, claimed, 0, Stamped(before, claimed, now), [], [], now)
  {
    assert Stamped(before, claimed, now).Keys == before.Keys;
  }

  lemma UptoMeans(
    policy: Retry.RetryPolicy, world: World, before: Rows, claimed: seq<Id>, i: nat, rows: Rows,
    outcomes: seq<Outcome>, nexts: seq<int>, now: int)
    requires Upto(policy, world, before, claimed, i, rows, outcomes, nexts, now) && i < |claimed|
    ensures claimed[i] in before && claimed[i] in rows && rows[claimed[i]] == before[claimed[i]].(claimedAt := Some(now))
    ensures var definitions := Stamped(before, claimed, now);
      claimed[i] in definitions && definitions[claimed[i]] == before[claimed[i]].(claimedAt := Some(now))
  {
  }

  lemma UptoStep(
    policy: Retry.RetryPolicy, world: World, before: Rows, claimed: seq<Id>, i: nat, rows: Rows, rows': Rows,
    outcomes: seq<Outcome>, nexts: seq<int>, outcome: Outcome, next: int, now: int)
    requires Upto(policy, world, before, claimed, i, rows, outcomes, nexts, now) && i < |claimed|
    requires forall j, k :: 0 <= j < k < |claimed| ==> claimed[j] != claimed[k]
    requires claimed[i] in before && claimed[i] in rows
    requires outcome == Outcome(claimed[i], ResultOf(policy, world, claimed[i], before[claimed[i]].report))
    requires IsNextRun(before[claimed[i]].config, before[claimed[i]].zone, now, next)
    requires rows' == rows[claimed[i] := Recorded(rows[claimed[i]], now, outcome.status, next)]
    ensures Upto(policy, world, before, claimed, i + 1, rows', outcomes + [outcome], nexts + [next], now)
  {
    hide IsNextRun, ResultOf;
    assert RowRecorded(policy, world, before, rows', outcome, next, now);
    forall k | 0 <= k < i
      ensures RowRecorded(policy, world, before, rows', outcomes[k], nexts[k], now)
    {
      assert RowRecorded(policy, world, before, rows, outcomes[k], nexts[k], now);
      assert outcomes[k].schedule != claimed[i];
    }
    hide RowRecorded, Recorded;
  }

  lemma UptoDone(
    policy: Retry.RetryPolicy, world: World, before: Rows, claimed: seq<Id>, rows: Rows,
    outcomes: seq<Outcome>, nexts: seq<int>, now: int)
    requires Upto(policy, world, before, claimed, |claimed|, rows, outcomes, nexts, now)
    ensures |nexts| == |outcomes| && Ids(outcomes) == claimed
    ensures BatchRecorded(policy, world, before, rows, outcomes, nexts, now)
  {
    hide RowRecorded;
    assert Ids(outcomes) == claimed;
  }

  lemma BatchDistinct(rows: Rows, claimed: seq<Id>, now: int, staleAfter: int, limit: nat)
    requires EarliestBatch(rows, claimed, now, staleAfter, limit)
    ensures forall i :: 0 <= i < |claimed| ==> claimed[i] in rows
    ensures forall i, j :: 0 <= i < j < |claimed| ==> claimed[i] != claimed[j]
  {
  }

  function Ids(outcomes: seq<Outcome>): (ids: seq<Id>)
    ensures |ids| == |outcomes|
  {
    seq(|outcomes|, i requires 0 <= i < |outcomes| => outcomes[i].schedule)
  }

  function AllExecutions(policy: Retry.RetryPolicy, world: World, rows: Rows, ids: seq<Id>): seq<Execution>
  {
    if ids == [] then []
    else
      var front, id := AllExecutions(policy, world, rows, ids[..|ids| - 1]), ids[|ids| - 1];
      if id in rows then front + ExecutionsOf(policy, world, id, rows[id].report) else front
  }

  /** The row was claimed at this moment and its run recorded with the next run its own schedule gives. */
  ghost predicate RowRecorded(policy: Retry.RetryPolicy, world: World, before: Rows, after: Rows, outcome: Outcome, next: int, now: int)
  {
    var id := outcome.schedule;
    && id in before && id in after
    && outcome.status == ResultOf(policy, world, id, before[id].report)
    && IsNextRun(before[id].config, before[id].zone, now, next)
    && after[id] == Recorded(before[id], now, outcome.status, next)
  }

  ghost predicate BatchRecorded(policy: Retry.RetryPolicy, world: World, before: Rows, after: Rows, outcomes: seq<Outcome>, nexts: seq<int>, now: int)
    requires |nexts| == |outcomes|
  {
    && after.Keys == before.Keys
    && (forall k :: 0 <= k < |outcomes| ==> RowRecorded(policy, world, before, after, outcomes[k], nexts[k], now))
    && (forall id :: id in before && id !in Ids(outcomes) ==> after[id] == before[id])
  }

  // ---- what a run records ----

  /**
   A claimed schedule completes exactly when its report is active and some attempt succeeds
   before the retry policy gives up; it fails when the report is active and none does.
   */
  lemma ResultIff(policy: Retry.RetryPolicy, world: World, id: Id, report: Id)
    ensures var attempts := world.executions(id);
      && (ResultOf(policy, world, id, report) == Completed <==>
          world.definitions(report) == Active
          && exists k: nat :: k >= 1 && attempts(k).None? && forall j :: 1 <= j < k ==> !Retry.Stops(policy, SOURCE, attempts, j))
      && (ResultOf(policy, world, id, report) == Skipped <==> world.definitions(report) != Active)
      && |ExecutionsOf(policy, world, id, report)| == if ResultOf(policy, world, id, report) == Skipped then 0 else 1
  {
    Retry.SucceedsIff(policy, SOURCE, world.executions(id));
  }

  /** Failures recorded since the last completion, skips aside. */
  function Streak(results: seq<RunResult>): nat
  {
    if results == [] then 0
    else
      match results[|results| - 1]
      case Completed => 0
      case Failed => Streak(results[..|results| - 1]) + 1
      case Skipped => Streak(results[..|results| - 1])
  }

  datatype Recording = Recording(ranAt: int, result: RunResult, next: int)

  function RecordedAll(row: Row, recordings: seq<Recording>): Row
  {
    if recordings == [] then row
    else
      var last := recordings[|recordings| - 1];
      Recorded(RecordedAll(row, recordings[..|recordings| - 1]), last.ranAt, last.result, last.next)
  }

  function Results(recordings: seq<Recording>): (results: seq<RunResult>)
    ensures |results| == |recordings|
  {
    seq(|recordings|, i requires 0 <= i < |recordings| => recordings[i].result)
  }

  /** The failure count on a row is the number of failures since it last completed. */
  lemma {:induction false} FailuresAreTheStreak(row: Row, recordings: seq<Recording>)
    requires row.failures == 0
    ensures RecordedAll(row, recordings).failures == Streak(Results(recordings))
  {
    if recordings != [] {
      var front := recordings[..|recordings| - 1];
      FailuresAreTheStreak(row, front);
      assert Results(recordings)[..|recordings| - 1] == Results(front);
    }
  }

  /**
   A run leaves its row no longer due at the moment it was claimed, exactly unless the reference
   was in the second pass of a repeated hour with a firing time left in it.
   */
  lemma DueAgainIff(row: Row, now: int, staleAfter: int, result: RunResult, next: int)
    requires Zones.WellSeparated(row.zone) && IsNextRun(row.config, row.zone, now, next)
    ensures Due(Recorded(row, now, result, next), now, staleAfter) <==>
      row.enabled && Calculator.FiresAgainInRepeat(row.config, row.zone, now)
  {
    hide Calculator.IsNextFiring, Calculator.FiresAgainInRepeat, Zones.WellSeparated;
    var date :| Calculator.IsNextFiring(row.config, Zones.LocalOf(row.zone, now), date)
      && next == Zones.UtcOf(row.zone, Calculator.WallTime(date, Calculator.TimeOfDay(row.config)));
    Calculator.StrictlyAfterIff(row.config, row.zone, now, date);
  }

  /** What is written down about a run: that it completed exactly if it did, and as many retries as attempts after the first. */
  lemma ExecutionTells(policy: Retry.RetryPolicy, world: World, id: Id, report: Id)
    requires world.definitions(report) == Active
    ensures var written, attempts := ExecutionsOf(policy, world, id, report), world.executions(id);
      && |written| == 1 && written[0].schedule == id
      && (written[0].completed <==> ResultOf(policy, world, id, report) == Completed)
      && Retry.Stops(policy, SOURCE, attempts, written[0].retries + 1)
      && (written[0].completed <==> attempts(written[0].retries + 1).None?)
      && forall j :: 1 <= j <= written[0].retries ==> !Retry.Stops(policy, SOURCE, attempts, j)
  {
  }

  /** After any records a row shows the last of them: when it ran, how it ended, when it is to run next, and no claim. Nothing else of it changes. */
  lemma {:induction false} RowShowsLastRecord(row: Row, recordings: seq<Recording>)
    ensures var row' := RecordedAll(row, recordings);
      && row'.workspace == row.workspace && row'.report == row.report && row'.config == row.config && row'.zone == row.zone
      && row'.enabled == row.enabled
      && (recordings != [] ==>
          var last := recordings[|recordings| - 1];
          row'.lastRunAt == Some(last.ranAt) && row'.lastResult == Some(last.result) && row'.nextRunAt == last.next && row'.claimedAt.None?)
  {
    if recordings != [] {
      RowShowsLastRecord(row, recordings[..|recordings| - 1]);
    }
  }

  /** Every claimed row is enabled, due by its next run, and either unclaimed or claimed longer ago than the limit; they come in the order they are to run in, and every such row left out runs no earlier. */
  lemma ClaimedAreDue(rows: Rows, claimed: seq<Id>, now: int, staleAfter: int, limit: nat, id: Id)
    requires EarliestBatch(rows, claimed, now, staleAfter, limit) && id in rows
    ensures id in claimed ==>
      var row := rows[id]; row.enabled && row.nextRunAt <= now && (row.claimedAt.Some? ==> now - row.claimedAt.value > staleAfter)
    ensures |claimed| < limit ==>
      var row := rows[id];
      (id in claimed <==> row.enabled && row.nextRunAt <= now && (row.claimedAt.Some? ==> now - row.claimedAt.value > staleAfter))
    ensures |claimed| <= limit
    ensures forall i, j :: 0 <= i < j < |claimed| ==>
      claimed[i] in rows && claimed[j] in rows && claimed[i] != claimed[j] && rows[claimed[i]].nextRunAt <= rows[claimed[j]].nextRunAt
    ensures var row := rows[id];
      id !in claimed && row.enabled && row.nextRunAt <= now && (row.claimedAt.Some? ==> now - row.claimedAt.value > staleAfter) ==>
      forall i :: 0 <= i < |claimed| ==> claimed[i] in rows && rows[claimed[i]].nextRunAt <= row.nextRunAt
  {
  }
}
