/**
 What a step that is not `Ahead` leads to: from the state it leaves, prompt workers can finish an
 occurrence out of order by a claim and a record that are otherwise beyond reproach.
 */
module LeaseOrder {
  import opened Common
  import opened Schedules
  import opened LeaseProtocol
  import Calculator
  import Zones

  ghost predicate AllIncreasing(w: Cluster)
  {
    forall id :: Increasing(FinishedOf(w, id))
  }

  /** Every step but the last is ahead, in a zone whose clock changes do not overlap. */
  ghost predicate AheadButLast(staleAfter: int, w: Cluster, steps: seq<Step>)
    requires Legal(staleAfter, w, steps)
    decreases |steps|
  {
    |steps| <= 1
    || (Separated(w, steps[0]) && Ahead(w, steps[0]) && AheadButLast(staleAfter, Next(staleAfter, w, steps[0]), steps[1..]))
  }

  ghost predicate MayFollow(staleAfter: int, w: Cluster, steps: seq<Step>)
  {
    Legal(staleAfter, w, steps) && AllPrompt(staleAfter, w, steps) && AheadButLast(staleAfter, w, steps)
  }

  // ---- as long as steps are ahead ----

  lemma StepFinishesInOrder(staleAfter: int, w: Cluster, step: Step)
    requires AllInOrder(w) && HoldsAhead(w) && Enabled(staleAfter, w, step)
    ensures AllIncreasing(Next(staleAfter, w, step))
  {
    hide IsNextRun, Recorded, Due, Increasing, Below;
    var w' := Next(staleAfter, w, step);
    forall id
      ensures Increasing(FinishedOf(w', id))
    {
      assert InOrder(w, id);
      if step.Finish? && w.holds[step.h].row == id {
        Appended(FinishedOf(w, id), w.holds[step.h].occurrence, 0);
      }
    }
  }

  lemma {:induction false} FollowsInOrder(staleAfter: int, w: Cluster, steps: seq<Step>)
    requires Leased(staleAfter, w) && AllInOrder(w) && HoldsAhead(w) && MayFollow(staleAfter, w, steps)
    ensures AllIncreasing(After(staleAfter, w, steps))
    decreases |steps|
  {
    if steps == [] {
      forall id
        ensures Increasing(FinishedOf(w, id))
      {
        assert InOrder(w, id);
      }
    } else {
      hide Enabled, Prompt, Separated, Ahead, Next, Leased, AllInOrder, HoldsAhead, AllIncreasing;
      var w' := Next(staleAfter, w, steps[0]);
      if |steps| == 1 {
        StepFinishesInOrder(staleAfter, w, steps[0]);
        assert After(staleAfter, w', steps[1..]) == w';
      } else {
        LeaseKept(staleAfter, w, steps[0]);
        HoldsStayAhead(staleAfter, w, steps[0]);
        OrderKeptIff(staleAfter, w, steps[0]);
        FollowsInOrder(staleAfter, w', steps[1..]);
      }
    }
  }

  // ---- a next run that is not later than everything finished is finished all the same ----

  /** Steps that neither record nor edit are always ahead. */
  predicate StoresNothing(steps: seq<Step>)
  {
    forall i :: 0 <= i < |steps| ==> !steps[i].Finish? && !steps[i].Edit?
  }

  lemma {:induction false} StoresNothingIsAhead(staleAfter: int, w: Cluster, steps: seq<Step>, last: Step)
    requires StoresNothing(steps) && Legal(staleAfter, w, steps + [last])
    ensures AheadButLast(staleAfter, w, steps + [last])
    decreases |steps|
  {
    hide Enabled, Next;
    if steps != [] {
      assert (steps + [last])[1..] == steps[1..] + [last];
      StoresNothingIsAhead(staleAfter, Next(staleAfter, w, steps[0]), steps[1..], last);
    }
  }

  /** Every worker may crash. */
  lemma {:induction false} AllCrash(staleAfter: int, w: Cluster) returns (steps: seq<Step>)
    ensures Legal(staleAfter, w, steps) && AllPrompt(staleAfter, w, steps) && StoresNothing(steps)
    ensures After(staleAfter, w, steps) == w.(holds := map[])
    decreases |w.holds|
  {
    if w.holds == map[] {
      steps := [];
    } else {
      var h :| h in w.holds;
      assert (w.holds - {h}).Keys == w.holds.Keys - {h};
      var rest := AllCrash(staleAfter, Next(staleAfter, w, Crash(h)));
      steps := [Crash(h)] + rest;
      assert steps[1..] == rest;
    }
  }

  function Latest(a: int, b: int): int
  {
    if a < b then b else a
  }

  /** A moment at which the row is due, if it is enabled. */
  function DueMoment(staleAfter: int, w: Cluster, row: Row): int
  {
    Latest(Latest(w.clock, row.nextRunAt), if row.claimedAt.Some? then row.claimedAt.value + staleAfter + 1 else w.clock)
  }

  /** With nobody at work, the row's next run is claimed and recorded. */
  lemma RunNext(staleAfter: int, w: Cluster, id: Id) returns (steps: seq<Step>, last: Step)
    requires staleAfter >= 0 && w.holds == map[] && id in w.rows
    ensures Legal(staleAfter, w, steps + [last]) && AllPrompt(staleAfter, w, steps + [last]) && StoresNothing(steps)
    ensures FinishedOf(After(staleAfter, w, steps + [last]), id) == FinishedOf(w, id) + [w.rows[id].nextRunAt]
  {
    var row := w.rows[id];
    var moment := DueMoment(staleAfter, w, row);
    var date := Calculator.NextFiringExists(row.config, Zones.LocalOf(row.zone, moment));
    var next := Zones.UtcOf(row.zone, Calculator.WallTime(date, Calculator.TimeOfDay(row.config)));
    assert IsNextRun(row.config, row.zone, moment, next);
    hide IsNextRun, Recorded;
    var a, b, c, d := Switch(id, true), Tick(moment), Claim(0, id, moment), Finish(0, Completed, next);
    OneStep(staleAfter, w, a);
    Extend(staleAfter, w, [a], b);
    Extend(staleAfter, w, [a] + [b], c);
    Extend(staleAfter, w, [a] + [b] + [c], d);
    steps, last := [a] + [b] + [c], d;
  }

  lemma OverdueRunsAgain(staleAfter: int, w: Cluster, id: Id) returns (steps: seq<Step>)
    requires staleAfter >= 0 && id in w.rows && !Below(FinishedOf(w, id), w.rows[id].nextRunAt)
    ensures MayFollow(staleAfter, w, steps) && !Increasing(FinishedOf(After(staleAfter, w, steps), id))
  {
    var crashes := AllCrash(staleAfter, w);
    var alone := w.(holds := map[]);
    var rest, last := RunNext(staleAfter, alone, id);
    var done, next := FinishedOf(w, id), w.rows[id].nextRunAt;
    var i :| 0 <= i < |done| && done[i] >= next;
    assert (done + [next])[i] >= (done + [next])[|done|];
    hide Legal, After, AllPrompt, AheadButLast;
    Join(staleAfter, w, crashes, rest + [last]);
    assert crashes + (rest + [last]) == (crashes + rest) + [last];
    StoresNothingIsAhead(staleAfter, w, crashes + rest, last);
    steps := crashes + (rest + [last]);
  }

  // ---- both together ----

  ghost predicate AlwaysFinishesInOrder(staleAfter: int, w: Cluster)
  {
    forall steps :: MayFollow(staleAfter, w, steps) ==> AllIncreasing(After(staleAfter, w, steps))
  }

  /**
   A step is ahead exactly when no run of prompt workers from where it leads, whose steps before its
   last are ahead, finishes an occurrence out of order: the condition is not stricter than the promise.
   */
  lemma AheadIff(staleAfter: int, w: Cluster, step: Step)
    requires staleAfter >= 0 && Leased(staleAfter, w) && AllInOrder(w) && HoldsAhead(w)
    requires Enabled(staleAfter, w, step) && Prompt(staleAfter, w, step) && Separated(w, step)
    ensures Ahead(w, step) <==> AlwaysFinishesInOrder(staleAfter, Next(staleAfter, w, step))
  {
    LeaseKept(staleAfter, w, step);
    HoldsStayAhead(staleAfter, w, step);
    OrderKeptIff(staleAfter, w, step);
    hide Enabled, Prompt, Separated, Ahead, Next, Leased, HoldsAhead, MayFollow, Below, Increasing;
    var w' := Next(staleAfter, w, step);
    if AllInOrder(w') {
      forall steps | MayFollow(staleAfter, w', steps)
        ensures AllIncreasing(After(staleAfter, w', steps))
      {
        FollowsInOrder(staleAfter, w', steps);
      }
    } else {
      NotInOrderShows(staleAfter, w');
    }
  }

  lemma NotInOrderShows(staleAfter: int, w: Cluster)
    requires staleAfter >= 0 && !AllInOrder(w)
    ensures !AlwaysFinishesInOrder(staleAfter, w)
  {
    hide Increasing, Below;
    var id :| !InOrder(w, id);
    var steps: seq<Step> := [];
    if Increasing(FinishedOf(w, id)) {
      steps := OverdueRunsAgain(staleAfter, w, id);
    }
    assert MayFollow(staleAfter, w, steps);
    hide MayFollow;
    assert !AllIncreasing(After(staleAfter, w, steps));
  }

  // ---- over whole runs ----

  lemma {:induction false} OrderReached(staleAfter: int, w: Cluster, steps: seq<Step>)
    requires Leased(staleAfter, w) && AllInOrder(w) && HoldsAhead(w)
    requires Legal(staleAfter, w, steps) && AllPrompt(staleAfter, w, steps)
    requires AllSeparated(staleAfter, w, steps) && AllAhead(staleAfter, w, steps)
    ensures var w' := After(staleAfter, w, steps); Leased(staleAfter, w') && AllInOrder(w') && HoldsAhead(w')
    decreases |steps|
  {
    hide Enabled, Prompt, Separated, Ahead, Next, Leased, AllInOrder, HoldsAhead;
    if steps != [] {
      LeaseKept(staleAfter, w, steps[0]);
      HoldsStayAhead(staleAfter, w, steps[0]);
      OrderKeptIff(staleAfter, w, steps[0]);
      OrderReached(staleAfter, Next(staleAfter, w, steps[0]), steps[1..]);
    }
  }

  /**
   At any point of a run of prompt workers whose steps were ahead: the next step is ahead if and only
   if nothing prompt workers may then do finishes an occurrence out of order.
   */
  lemma NextStepAheadIff(staleAfter: int, clock: int, steps: seq<Step>, step: Step)
    requires staleAfter >= 0 && Legal(staleAfter, Empty(clock), steps) && AllPrompt(staleAfter, Empty(clock), steps)
    requires AllSeparated(staleAfter, Empty(clock), steps) && AllAhead(staleAfter, Empty(clock), steps)
    requires var w := After(staleAfter, Empty(clock), steps);
      Enabled(staleAfter, w, step) && Prompt(staleAfter, w, step) && Separated(w, step)
    ensures var w := After(staleAfter, Empty(clock), steps);
      Ahead(w, step) <==> AlwaysFinishesInOrder(staleAfter, Next(staleAfter, w, step))
  {
    OrderReached(staleAfter, Empty(clock), steps);
    hide After, Legal, AllPrompt, AllSeparated, AllAhead, Enabled, Prompt, Separated, Ahead, Next, AlwaysFinishesInOrder;
    AheadIff(staleAfter, After(staleAfter, Empty(clock), steps), step);
  }
}
