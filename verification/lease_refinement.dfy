/** A worker's sweep over a batch, as the protocol's steps: all its claims at one moment, then its records one by one. */
module LeaseRefinement {
  import opened Common
  import opened Schedules
  import opened LeaseProtocol
  import Retry

  function Claims(ids: seq<Id>, h: HoldId, now: int): seq<Step>
  {
    seq(|ids|, i requires 0 <= i < |ids| => Claim(HoldNumber(h, i), ids[i], now))
  }

  function Finishes(outcomes: seq<Outcome>, nexts: seq<int>, h: HoldId): seq<Step>
    requires |nexts| == |outcomes|
  {
    seq(|outcomes|, i requires 0 <= i < |outcomes| => Finish(HoldNumber(h, i), outcomes[i].status, nexts[i]))
  }

  function HoldFor(row: Row, id: Id, now: int): Hold
  {
    Hold(id, now, row.nextRunAt, row.config, row.zone)
  }

  function HoldNumber(h: HoldId, i: nat): HoldId
  {
    h + i
  }

  /** The holds a batch gives its worker, numbered from h. */
  function HoldsOf(rows: Rows, ids: seq<Id>, h: HoldId, now: int): (holds: map<HoldId, Hold>)
    requires forall i :: 0 <= i < |ids| ==> ids[i] in rows
    ensures forall k :: k in holds ==> h <= k < h + |ids|
    ensures forall i :: 0 <= i < |ids| ==> HoldNumber(h, i) in holds && holds[HoldNumber(h, i)] == HoldFor(rows[ids[i]], ids[i], now)
  {
    if ids == [] then map[]
    else
      var n := |ids| - 1;
      HoldsOf(rows, ids[..n], h, now)[HoldNumber(h, n) := HoldFor(rows[ids[n]], ids[n], now)]
  }

  /** The caller's hold identifiers are its own. */
  ghost predicate FreshFrom(w: Cluster, h: HoldId)
  {
    forall k :: k in w.holds ==> k < h
  }

  ghost predicate AllDue(rows: Rows, ids: seq<Id>, now: int, staleAfter: int)
  {
    && (forall i :: 0 <= i < |ids| ==> ids[i] in rows && Due(rows[ids[i]], now, staleAfter))
    && AllDistinct(ids)
  }

  predicate AllDistinct(ids: seq<Id>)
  {
    forall i, j :: 0 <= i < j < |ids| ==> ids[i] != ids[j]
  }

  function AfterClaims(w: Cluster, ids: seq<Id>, h: HoldId, now: int): Cluster
    requires forall i :: 0 <= i < |ids| ==> ids[i] in w.rows
  {
    w.(rows := Stamped(w.rows, ids, now), holds := w.holds + HoldsOf(w.rows, ids, h, now))
  }

  lemma StampMore(rows: Rows, ids: seq<Id>, now: int)
    requires ids != [] && AllDistinct(ids) && forall i :: 0 <= i < |ids| ==> ids[i] in rows
    ensures var n := |ids| - 1;
      var front := Stamped(rows, ids[..n], now);
      && ids[n] in front && front[ids[n]] == rows[ids[n]]
      && front[ids[n] := rows[ids[n]].(claimedAt := Some(now))] == Stamped(rows, ids, now)
  {
    var n := |ids| - 1;
    assert ids[n] !in ids[..n];
    assert ids == ids[..n] + [ids[n]];
    assert forall id :: id in ids <==> id in ids[..n] || id == ids[n];
  }

  lemma ClaimMore(staleAfter: int, w: Cluster, ids: seq<Id>, h: HoldId, now: int)
    requires ids != [] && now <= w.clock && FreshFrom(w, h) && AllDue(w.rows, ids, now, staleAfter)
    ensures var n := |ids| - 1;
      var w' := AfterClaims(w, ids[..n], h, now);
      && Enabled(staleAfter, w', Claim(HoldNumber(h, n), ids[n], now))
      && Next(staleAfter, w', Claim(HoldNumber(h, n), ids[n], now)) == AfterClaims(w, ids, h, now)
  {
    var n := |ids| - 1;
    StampMore(w.rows, ids, now);
    assert Due(w.rows[ids[n]], now, staleAfter);
    hide Due, Stamped, AllDistinct;
    var held, hold := HoldsOf(w.rows, ids[..n], h, now), HoldFor(w.rows[ids[n]], ids[n], now);
    assert HoldsOf(w.rows, ids, h, now) == held[HoldNumber(h, n) := hold];
    assert (w.holds + held)[HoldNumber(h, n) := hold] == w.holds + held[HoldNumber(h, n) := hold];
    hide HoldsOf;
  }

  /** The claims of a batch, one by one, amount to the store's one statement. */
  lemma {:induction false} ClaimsRun(staleAfter: int, w: Cluster, ids: seq<Id>, h: HoldId, now: int)
    requires now <= w.clock && FreshFrom(w, h) && AllDue(w.rows, ids, now, staleAfter)
    ensures Legal(staleAfter, w, Claims(ids, h, now))
    ensures After(staleAfter, w, Claims(ids, h, now)) == AfterClaims(w, ids, h, now)
  {
    if ids == [] {
      assert Stamped(w.rows, ids, now) == w.rows;
      assert w.holds + HoldsOf(w.rows, ids, h, now) == w.holds;
    } else {
      var n := |ids| - 1;
      var last := Claim(HoldNumber(h, n), ids[n], now);
      assert Claims(ids, h, now) == Claims(ids[..n], h, now) + [last];
      assert AllDue(w.rows, ids[..n], now, staleAfter);
      hide Enabled, Next, Legal, After, AllPrompt, AllSeparated, AfterClaims, FreshFrom, Claims, Due;
      ClaimsRun(staleAfter, w, ids[..n], h, now);
      ClaimMore(staleAfter, w, ids, h, now);
      hide AllDue;
      OneStep(staleAfter, AfterClaims(w, ids[..n], h, now), last);
      Join(staleAfter, w, Claims(ids[..n], h, now), [last]);
    }
  }

  function RecordedRows(rows: Rows, outcomes: seq<Outcome>, nexts: seq<int>, now: int): Rows
    requires |nexts| == |outcomes|
  {
    if outcomes == [] then rows
    else
      var n := |outcomes| - 1;
      var front, id := RecordedRows(rows, outcomes[..n], nexts[..n], now), outcomes[n].schedule;
      if id in front then front[id := Recorded(front[id], now, outcomes[n].status, nexts[n])] else front
  }

  lemma {:induction false} RecordedRowsAt(rows: Rows, outcomes: seq<Outcome>, nexts: seq<int>, now: int)
    requires |nexts| == |outcomes| && forall i :: 0 <= i < |outcomes| ==> outcomes[i].schedule in rows
    requires forall i, j :: 0 <= i < j < |outcomes| ==> outcomes[i].schedule != outcomes[j].schedule
    ensures RecordedRows(rows, outcomes, nexts, now).Keys == rows.Keys
    ensures forall i :: 0 <= i < |outcomes| ==>
      RecordedRows(rows, outcomes, nexts, now)[outcomes[i].schedule] == Recorded(rows[outcomes[i].schedule], now, outcomes[i].status, nexts[i])
    ensures forall id :: id in rows && (forall i :: 0 <= i < |outcomes| ==> outcomes[i].schedule != id) ==>
      RecordedRows(rows, outcomes, nexts, now)[id] == rows[id]
  {
    hide Recorded;
    if outcomes != [] {
      var n := |outcomes| - 1;
      RecordedRowsAt(rows, outcomes[..n], nexts[..n], now);
    }
  }

  /** The worker holds each row of its batch as it was claimed, and each of its answers is the calculator's. */
  ghost predicate Working(w: Cluster, rows: Rows, outcomes: seq<Outcome>, nexts: seq<int>, h: HoldId, now: int)
  {
    && |nexts| == |outcomes|
    && (forall i :: 0 <= i < |outcomes| ==> outcomes[i].schedule in rows)
    && (forall i, j :: 0 <= i < j < |outcomes| ==> outcomes[i].schedule != outcomes[j].schedule)
    && (forall i :: 0 <= i < |outcomes| ==> IsNextRun(rows[outcomes[i].schedule].config, rows[outcomes[i].schedule].zone, now, nexts[i]))
    && (forall i :: 0 <= i < |outcomes| ==>
        HoldNumber(h, i) in w.holds && w.holds[HoldNumber(h, i)] == HoldFor(rows[outcomes[i].schedule], outcomes[i].schedule, now))
  }

  function IdsFrom(h: HoldId, n: nat): (held: set<HoldId>)
    ensures forall k :: k in held ==> h <= k < h + n
  {
    if n == 0 then {} else IdsFrom(h, n - 1) + {HoldNumber(h, n - 1)}
  }

  /** The records of a batch, one by one: each row is recorded and each hold released. */
  lemma {:induction false} FinishesRun(
    staleAfter: int, w: Cluster, rows: Rows, outcomes: seq<Outcome>, nexts: seq<int>, h: HoldId, now: int)
    requires Working(w, rows, outcomes, nexts, h, now)
    ensures Legal(staleAfter, w, Finishes(outcomes, nexts, h))
    ensures var w' := After(staleAfter, w, Finishes(outcomes, nexts, h));
      && w'.rows == RecordedRows(w.rows, outcomes, nexts, now) && w'.holds == w.holds - IdsFrom(h, |outcomes|) && w'.clock == w.clock
  {
    hide IsNextRun, Recorded;
    if outcomes != [] {
      var n := |outcomes| - 1;
      var front, step := Finishes(outcomes[..n], nexts[..n], h), Finish(HoldNumber(h, n), outcomes[n].status, nexts[n]);
      FinishesRun(staleAfter, w, rows, outcomes[..n], nexts[..n], h, now);
      assert HoldNumber(h, n) in w.holds && w.holds[HoldNumber(h, n)] == HoldFor(rows[outcomes[n].schedule], outcomes[n].schedule, now);
      var w1 := After(staleAfter, w, front);
      assert Enabled(staleAfter, w1, step);
      var w2 := Next(staleAfter, w1, step);
      assert w2.rows == RecordedRows(w.rows, outcomes, nexts, now);
      assert w2.holds == w.holds - IdsFrom(h, n + 1);
      OneStep(staleAfter, w1, step);
      assert Finishes(outcomes, nexts, h) == front + [step];
      hide Enabled, Next, Legal, After, AllPrompt, AllSeparated, Finishes, Working, RecordedRows;
      Join(staleAfter, w, front, [step]);
    }
  }

  function SweepSteps(outcomes: seq<Outcome>, nexts: seq<int>, h: HoldId, now: int): seq<Step>
    requires |nexts| == |outcomes|
  {
    Claims(Ids(outcomes), h, now) + Finishes(outcomes, nexts, h)
  }

  lemma BatchIsWork(
    policy: Retry.RetryPolicy, world: Schedules.World, w: Cluster, after: Rows, outcomes: seq<Outcome>, nexts: seq<int>, h: HoldId, now: int, staleAfter: int, limit: nat)
    requires FreshFrom(w, h) && |nexts| == |outcomes|
    requires EarliestBatch(w.rows, Ids(outcomes), now, staleAfter, limit)
    requires BatchRecorded(policy, world, w.rows, after, outcomes, nexts, now)
    ensures AllDue(w.rows, Ids(outcomes), now, staleAfter)
    ensures Working(AfterClaims(w, Ids(outcomes), h, now), w.rows, outcomes, nexts, h, now)
  {
    hide Due, ResultOf, IsNextRun, Recorded;
    var ids := Ids(outcomes);
    forall i | 0 <= i < |outcomes|
      ensures outcomes[i].schedule == ids[i] && ids[i] in w.rows
      ensures IsNextRun(w.rows[outcomes[i].schedule].config, w.rows[outcomes[i].schedule].zone, now, nexts[i])
    {
      assert RowRecorded(policy, world, w.rows, after, outcomes[i], nexts[i], now);
    }
    hide EarliestBatch, BatchRecorded, Stamped;
    var holds := HoldsOf(w.rows, ids, h, now);
    hide HoldsOf, Ids;
  }

  lemma RowsAgree(
    policy: Retry.RetryPolicy, world: Schedules.World, before: Rows, after: Rows, outcomes: seq<Outcome>, nexts: seq<int>, now: int)
    requires |nexts| == |outcomes| && AllDistinct(Ids(outcomes)) && BatchRecorded(policy, world, before, after, outcomes, nexts, now)
    ensures RecordedRows(Stamped(before, Ids(outcomes), now), outcomes, nexts, now) == after
  {
    hide ResultOf, IsNextRun;
    var ids, stamped := Ids(outcomes), Stamped(before, Ids(outcomes), now);
    assert forall i :: 0 <= i < |outcomes| ==> ids[i] == outcomes[i].schedule;
    forall i | 0 <= i < |outcomes|
      ensures outcomes[i].schedule in before && after[outcomes[i].schedule] == Recorded(stamped[outcomes[i].schedule], now, outcomes[i].status, nexts[i])
    {
      assert RowRecorded(policy, world, before, after, outcomes[i], nexts[i], now);
    }
    hide Recorded, RowRecorded;
    RecordedRowsAt(stamped, outcomes, nexts, now);
    var rows := RecordedRows(stamped, outcomes, nexts, now);
    hide RecordedRows;
    forall id | id in before
      ensures rows[id] == after[id]
    {
      if id in ids {
        var i :| 0 <= i < |ids| && ids[i] == id;
        assert rows[outcomes[i].schedule] == after[outcomes[i].schedule];
      }
    }
  }

  /**
   What `SchedulerWorker.RunOnce` promises of a sweep is a run of the protocol by one worker: every
   claim at the sweep's moment, then every record, ending with the table as the worker left it and
   every hold released.
   */
  lemma SweepRefines(
    policy: Retry.RetryPolicy, world: Schedules.World, w: Cluster, after: Rows, outcomes: seq<Outcome>, nexts: seq<int>, h: HoldId, now: int, staleAfter: int, limit: nat)
    requires now <= w.clock && FreshFrom(w, h) && |nexts| == |outcomes|
    requires EarliestBatch(w.rows, Ids(outcomes), now, staleAfter, limit)
    requires BatchRecorded(policy, world, w.rows, after, outcomes, nexts, now)
    ensures Legal(staleAfter, w, SweepSteps(outcomes, nexts, h, now))
    ensures var w' := After(staleAfter, w, SweepSteps(outcomes, nexts, h, now));
      w'.rows == after && w'.holds == w.holds && w'.clock == w.clock
  {
    var ids := Ids(outcomes);
    BatchIsWork(policy, world, w, after, outcomes, nexts, h, now, staleAfter, limit);
    RowsAgree(policy, world, w.rows, after, outcomes, nexts, now);
    var w1 := AfterClaims(w, ids, h, now);
    ClaimsLeave(w, ids, h, now);
    hide EarliestBatch, BatchRecorded, AllDue, Working, Claims, Finishes, Legal, After, AllPrompt, AllSeparated, RecordedRows;
    hide AfterClaims, Stamped, FreshFrom;
    ClaimsRun(staleAfter, w, ids, h, now);
    FinishesRun(staleAfter, w1, w.rows, outcomes, nexts, h, now);
    Join(staleAfter, w, Claims(ids, h, now), Finishes(outcomes, nexts, h));
  }

  lemma ClaimsLeave(w: Cluster, ids: seq<Id>, h: HoldId, now: int)
    requires FreshFrom(w, h) && forall i :: 0 <= i < |ids| ==> ids[i] in w.rows
    ensures var w1 := AfterClaims(w, ids, h, now);
      w1.rows == Stamped(w.rows, ids, now) && w1.clock == w.clock && w1.holds - IdsFrom(h, |ids|) == w.holds
  {
    HeldAre(w.rows, ids, h, now);
    hide HoldsOf, IdsFrom, Stamped;
  }

  lemma {:induction false} HeldAre(rows: Rows, ids: seq<Id>, h: HoldId, now: int)
    requires forall i :: 0 <= i < |ids| ==> ids[i] in rows
    ensures HoldsOf(rows, ids, h, now).Keys == IdsFrom(h, |ids|)
  {
    if ids != [] {
      HeldAre(rows, ids[..|ids| - 1], h, now);
    }
  }
}
