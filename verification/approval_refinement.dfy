/**
 The runner's own methods, seen from the protocol: starting or resuming a run and carrying it on to
 its end is a sequence of the protocol's steps by one caller, with the same store, the same executed
 tools in the same order, and nothing left behind.
 */
module ApprovalRefinement {
  import opened Common
  import opened AgentStates
  import opened AgentRun
  import opened AgentRunners
  import opened ApprovalProtocol
  import Approvals

  /** The steps a caller takes when it runs the loop to its end. */
  function RunSteps(x: Setup, c: Caller, s: RunState, script: Script): seq<Step>
    decreases x.cfg.limits.maxIterations - s.iterations
  {
    if s.iterations >= x.cfg.limits.maxIterations then [Exhaust(c)]
    else
      var turn := script(s.iterations);
      var (s', effect) := Iterated(x.cfg, x.policy, s, turn);
      CountsOne(x.cfg, x.policy, s, turn);
      if effect.Crashed? || Over(s') then [Iterate(c, turn)] else [Iterate(c, turn)] + RunSteps(x, c, s', script)
  }

  function ToolEvents(runId: string, effects: seq<Effect>): seq<Event>
  {
    if effects == [] then []
    else
      var front, last := ToolEvents(runId, effects[..|effects| - 1]), effects[|effects| - 1];
      if last.Executed? then front + [ToolRan(runId, last.request)] else front
  }

  /** The tools a stretch of the log says were executed, in order. */
  function Requests(log: seq<Event>): seq<Request>
  {
    if log == [] then []
    else
      var front, last := Requests(log[..|log| - 1]), log[|log| - 1];
      if last.RejectionResumed? then front else front + [last.request]
  }

  /** The log's executed tools are the ones the effects of the run executed. */
  lemma {:induction false} EventsAreExecutions(runId: string, effects: seq<Effect>)
    ensures Requests(ToolEvents(runId, effects)) == ExecutedIn(effects)
  {
    if effects != [] {
      var front, last := effects[..|effects| - 1], effects[|effects| - 1];
      EventsAreExecutions(runId, front);
      if last.Executed? {
        var events := ToolEvents(runId, front);
        assert (events + [ToolRan(runId, last.request)])[..|events|] == events;
      }
    }
  }

  lemma {:induction false} EventsJoin(runId: string, effect: Effect, rest: seq<Effect>)
    ensures ToolEvents(runId, [effect] + rest) == ToolEvents(runId, [effect]) + ToolEvents(runId, rest)
    decreases |rest|
  {
    if rest == [] {
      assert [effect] + rest == [effect];
    } else {
      var n := |rest| - 1;
      assert ([effect] + rest)[..|rest|] == [effect] + rest[..n];
      EventsJoin(runId, effect, rest[..n]);
    }
  }

  lemma OneEvent(runId: string, effect: Effect)
    ensures ToolEvents(runId, [effect]) == if effect.Executed? then [ToolRan(runId, effect.request)] else []
  {
    assert [effect][..0] == [];
  }

  /** The world when the caller's run has ended, but for recording it. */
  function Landed(x: Setup, w: World, c: Caller, out: Outcome): World
    requires c in w.going
  {
    w.(going := w.going - {c},
       finishing := if CrashedIn(out) then w.finishing else w.finishing[c := Finishing(out.state, w.going[c].origin)],
       store := StoredAfter(w.store, x.ttl, out),
       log := w.log + ToolEvents(w.going[c].state.runId, out.effects))
  }

  ghost predicate FreshIds(w: World, script: Script)
  {
    forall k :: script(k).approvalId !in w.store
  }

  ghost predicate Carries(w: World, c: Caller)
  {
    c in w.going && !w.going[c].owes && w.going[c].state.status == Running
  }

  lemma OneStep(x: Setup, w: World, step: Step)
    requires Enabled(x, w, step)
    ensures Legal(x, w, [step]) && After(x, w, [step]) == Next(x, w, step)
  {
    hide Enabled, Next;
    assert [step][1..] == [];
  }

  lemma {:induction false} Join(x: Setup, w: World, first: seq<Step>, rest: seq<Step>)
    requires Legal(x, w, first) && Legal(x, After(x, w, first), rest)
    ensures Legal(x, w, first + rest) && After(x, w, first + rest) == After(x, After(x, w, first), rest)
    decreases |first|
  {
    hide Enabled, Next;
    if first == [] {
      assert first + rest == rest;
    } else {
      assert (first + rest)[1..] == first[1..] + rest;
      Join(x, Next(x, w, first[0]), first[1..], rest);
    }
  }

  lemma ExhaustLands(x: Setup, w: World, c: Caller, script: Script)
    requires Carries(w, c) && w.going[c].state.iterations >= x.cfg.limits.maxIterations
    ensures var s := w.going[c].state;
      Legal(x, w, RunSteps(x, c, s, script)) && After(x, w, RunSteps(x, c, s, script)) == Landed(x, w, c, Ran(x.cfg, x.policy, s, script))
  {
    OneStep(x, w, Exhaust(c));
    assert w.log + [] == w.log;
  }

  lemma LastIterationLands(x: Setup, w: World, c: Caller, script: Script)
    requires Carries(w, c) && FreshIds(w, script) && w.going[c].state.iterations < x.cfg.limits.maxIterations
    requires var (s', effect) := Iterated(x.cfg, x.policy, w.going[c].state, script(w.going[c].state.iterations));
      effect.Crashed? || Over(s')
    ensures var s := w.going[c].state;
      Legal(x, w, RunSteps(x, c, s, script)) && After(x, w, RunSteps(x, c, s, script)) == Landed(x, w, c, Ran(x.cfg, x.policy, s, script))
  {
    var s := w.going[c].state;
    var turn := script(s.iterations);
    var (s', effect) := Iterated(x.cfg, x.policy, s, turn);
    OneStep(x, w, Iterate(c, turn));
    OneEvent(s.runId, effect);
    CountsOne(x.cfg, x.policy, s, turn);
    hide Iterated, Over, Legal, After, Stored;
    assert w.log + [] == w.log;
    assert effect.Crashed? ==> Stored(w.store, x.ttl, s', effect) == w.store by { NothingElseStored(w.store, x.ttl, s', Crashed); }
  }

  lemma IterationMoves(x: Setup, w: World, c: Caller, script: Script)
    requires Carries(w, c) && FreshIds(w, script) && w.going[c].state.iterations < x.cfg.limits.maxIterations
    requires var (s', effect) := Iterated(x.cfg, x.policy, w.going[c].state, script(w.going[c].state.iterations));
      !effect.Crashed? && !Over(s')
    ensures var s := w.going[c].state;
      var turn := script(s.iterations);
      var (s', effect) := Iterated(x.cfg, x.policy, s, turn);
      && Enabled(x, w, Iterate(c, turn))
      && Next(x, w, Iterate(c, turn)) == w.(going := w.going[c := w.going[c].(state := s')], log := w.log + ToolEvents(s.runId, [effect]))
      && s'.status == Running && s'.runId == s.runId && s'.iterations == s.iterations + 1 && !effect.Paused?
  {
    var s := w.going[c].state;
    var turn := script(s.iterations);
    var (s', effect) := Iterated(x.cfg, x.policy, s, turn);
    CountsOne(x.cfg, x.policy, s, turn);
    StillRunning(x.cfg, x.policy, s, turn);
    OneAccounts(x.cfg, x.policy, s, turn);
    OneEvent(s.runId, effect);
    hide Iterated, Stored, ToolEvents;
    assert w.log + [] == w.log;
  }

  lemma IterationLands(x: Setup, w: World, c: Caller, script: Script)
    requires Carries(w, c) && FreshIds(w, script) && w.going[c].state.iterations < x.cfg.limits.maxIterations
    requires var (s', effect) := Iterated(x.cfg, x.policy, w.going[c].state, script(w.going[c].state.iterations));
      !effect.Crashed? && !Over(s')
    ensures var s := w.going[c].state;
      var turn := script(s.iterations);
      var (s', effect) := Iterated(x.cfg, x.policy, s, turn);
      var w' := Next(x, w, Iterate(c, turn));
      Landed(x, w', c, Ran(x.cfg, x.policy, s', script)) == Landed(x, w, c, Ran(x.cfg, x.policy, s, script))
  {
    hide Iterated, Over, Ran, ToolEvents, Stored, StoredAfter, Next, Enabled, CrashedIn;
    IterationMoves(x, w, c, script);
    var s := w.going[c].state;
    var turn := script(s.iterations);
    var (s', effect) := Iterated(x.cfg, x.policy, s, turn);
    RanUnfolds(x.cfg, x.policy, s, script);
    var rest := Ran(x.cfg, x.policy, s', script);
    EventsJoin(s.runId, effect, rest.effects);
    LaterStored(w.store, x.ttl, effect, rest);
    var w' := Next(x, w, Iterate(c, turn));
    assert w'.going - {c} == w.going - {c};
    assert w.log + ToolEvents(s.runId, [effect]) + ToolEvents(s.runId, rest.effects)
      == w.log + (ToolEvents(s.runId, [effect]) + ToolEvents(s.runId, rest.effects));
  }

  lemma IterationGoesOn(x: Setup, w: World, c: Caller, script: Script)
    requires Carries(w, c) && FreshIds(w, script) && w.going[c].state.iterations < x.cfg.limits.maxIterations
    requires var (s', effect) := Iterated(x.cfg, x.policy, w.going[c].state, script(w.going[c].state.iterations));
      !effect.Crashed? && !Over(s')
    ensures var s := w.going[c].state;
      var turn := script(s.iterations);
      var (s', effect) := Iterated(x.cfg, x.policy, s, turn);
      && Enabled(x, w, Iterate(c, turn))
      && var w' := Next(x, w, Iterate(c, turn));
         && Carries(w', c) && FreshIds(w', script) && w'.going[c].state == s' && s'.iterations == s.iterations + 1
         && Landed(x, w', c, Ran(x.cfg, x.policy, s', script)) == Landed(x, w, c, Ran(x.cfg, x.policy, s, script))
         && RunSteps(x, c, s, script) == [Iterate(c, turn)] + RunSteps(x, c, s', script)
  {
    hide Iterated, Over, Ran, ToolEvents, Next, Enabled, Landed;
    IterationMoves(x, w, c, script);
    IterationLands(x, w, c, script);
  }

  lemma LaterStored(store: Approvals.Store, ttl: Option<int>, effect: Effect, rest: Outcome)
    requires !effect.Paused? && !effect.Crashed?
    ensures StoredAfter(store, ttl, Joined([effect], rest)) == StoredAfter(store, ttl, rest)
    ensures CrashedIn(Joined([effect], rest)) == CrashedIn(rest)
  {
    NothingElseStored(store, ttl, rest.state, effect);
    hide Stored;
  }

  /** The loop, run by one caller to its end, is a run of the protocol. */
  lemma {:induction false} LoopRefines(x: Setup, w: World, c: Caller, script: Script)
    requires Carries(w, c) && FreshIds(w, script)
    ensures var s := w.going[c].state;
      Legal(x, w, RunSteps(x, c, s, script)) && After(x, w, RunSteps(x, c, s, script)) == Landed(x, w, c, Ran(x.cfg, x.policy, s, script))
    decreases x.cfg.limits.maxIterations - w.going[c].state.iterations
  {
    hide Iterated, Over, Landed, Ran, RunSteps, FreshIds, Enabled, Next;
    var s := w.going[c].state;
    if s.iterations >= x.cfg.limits.maxIterations {
      ExhaustLands(x, w, c, script);
    } else {
      var turn := script(s.iterations);
      var (s', effect) := Iterated(x.cfg, x.policy, s, turn);
      if effect.Crashed? || Over(s') {
        LastIterationLands(x, w, c, script);
      } else {
        IterationGoesOn(x, w, c, script);
        var w' := Next(x, w, Iterate(c, turn));
        LoopRefines(x, w', c, script);
        OneStep(x, w, Iterate(c, turn));
        Join(x, w, [Iterate(c, turn)], RunSteps(x, c, s', script));
      }
    }
  }

  /** All a resumer does after its claim is granted: execute what it owes, run on, and record the end unless it failed. */
  function ResumeSteps(
    x: Setup, c: Caller, id: Id, record: Approvals.Record, recomputed: Option<Request>, outcome: ToolResult,
    script: Script, now: int, later: int): seq<Step>
  {
    var start := ApprovedStart(record, recomputed, outcome);
    [ClaimApproved(c, id, now), Execute(c, recomputed, outcome)] + RunSteps(x, c, start, script)
    + if CrashedIn(Ran(x.cfg, x.policy, start, script)) then [] else [Step.Record(c, later)]
  }

  lemma RecordEnds(x: Setup, w: World, c: Caller, id: Id, out: Outcome, later: int)
    requires c in w.going && w.going[c].origin == Some(id) && !CrashedIn(out)
    ensures var landed := Landed(x, w, c, out);
      && Enabled(x, landed, Step.Record(c, later))
      && Next(x, landed, Step.Record(c, later)) ==
         landed.(finishing := w.finishing - {c}, store := StoreAfterResume(w.store, x.ttl, id, out, later))
  {
    hide StoredAfter, ToolEvents, Approvals.Finished;
    assert w.finishing[c := Finishing(out.state, w.going[c].origin)] - {c} == w.finishing - {c};
  }

  lemma ClaimThenExecute(x: Setup, w: World, c: Caller, id: Id, recomputed: Option<Request>, outcome: ToolResult, now: int)
    requires NewCaller(w, c) && Approvals.Claimable(w.store, id, Approvals.Approved, now)
    ensures var (claimed, granted) := Approvals.Claimed(w.store, id, Approvals.Approved, now);
      && granted.Ok? && granted.value.Some?
      && var record := granted.value.value;
         var start := ApprovedStart(record, recomputed, outcome);
         var first := [ClaimApproved(c, id, now), Execute(c, recomputed, outcome)];
         && Legal(x, w, first)
         && After(x, w, first) == w.(
              store := claimed, going := w.going[c := Going(start, Some(id), false)],
              log := if StillValid(record, recomputed) then w.log + [ApprovedRan(start.runId, id, record.checkpoint.action)] else w.log)
  {
    var (claimed, granted) := Approvals.Claimed(w.store, id, Approvals.Approved, now);
    var record := granted.value.value;
    var w1 := Next(x, w, ClaimApproved(c, id, now));
    assert w1 == w.(store := claimed, going := w.going[c := Going(record.checkpoint.state, Some(id), true)]);
    assert w1.store[id] == record && record.(checkpoint := record.checkpoint.(state := w1.going[c].state)) == record;
    OneStep(x, w, ClaimApproved(c, id, now));
    OneStep(x, w1, Execute(c, recomputed, outcome));
    hide Next, Enabled, Legal, After;
    Join(x, w, [ClaimApproved(c, id, now)], [Execute(c, recomputed, outcome)]);
    assert [ClaimApproved(c, id, now)] + [Execute(c, recomputed, outcome)] == [ClaimApproved(c, id, now), Execute(c, recomputed, outcome)];
    ExecutedWorld(x, w1, c, recomputed, outcome, record, id);
    assert w1.going[c := Going(ApprovedStart(record, recomputed, outcome), Some(id), false)]
      == w.going[c := Going(ApprovedStart(record, recomputed, outcome), Some(id), false)];
  }

  lemma ExecutedWorld(x: Setup, w: World, c: Caller, recomputed: Option<Request>, outcome: ToolResult, record: Approvals.Record, id: Id)
    requires c in w.going && w.going[c] == Going(record.checkpoint.state, Some(id), true) && id in w.store && w.store[id] == record
    ensures Enabled(x, w, Execute(c, recomputed, outcome))
    ensures var start := ApprovedStart(record, recomputed, outcome);
      Next(x, w, Execute(c, recomputed, outcome)) == w.(
        going := w.going[c := Going(start, Some(id), false)],
        log := if StillValid(record, recomputed) then w.log + [ApprovedRan(start.runId, id, record.checkpoint.action)] else w.log)
  {
    hide ApprovedStart;
  }

  /**
   Resuming an approved request, as the runner does it, is a run of the protocol by one caller: the
   store ends as `AgentRunner.ResumeApproval` says, and the log grows by the approved execution,
   when it was still valid, and the tools the loop executed.
   */
  lemma ResumeRefines(
    x: Setup, w: World, c: Caller, id: Id, recomputed: Option<Request>, outcome: ToolResult, script: Script, now: int, later: int)
    requires NewCaller(w, c) && Approvals.Claimable(w.store, id, Approvals.Approved, now) && FreshIds(w, script)
    ensures var (claimed, granted) := Approvals.Claimed(w.store, id, Approvals.Approved, now);
      && granted.Ok? && granted.value.Some?
      && var record := granted.value.value;
         var start := ApprovedStart(record, recomputed, outcome);
         var out := Ran(x.cfg, x.policy, start, script);
         var steps := ResumeSteps(x, c, id, record, recomputed, outcome, script, now, later);
         && Legal(x, w, steps)
         && var w' := After(x, w, steps);
            && w'.store == StoreAfterResume(claimed, x.ttl, id, out, later)
            && w'.log == w.log + (if StillValid(record, recomputed) then [ApprovedRan(start.runId, id, record.checkpoint.action)] else [])
               + ToolEvents(start.runId, out.effects)
            && w'.going == w.going && w'.finishing == w.finishing && w'.runs == w.runs
  {
    var (claimed, granted) := Approvals.Claimed(w.store, id, Approvals.Approved, now);
    ClaimThenExecute(x, w, c, id, recomputed, outcome, now);
    ClaimKeepsIds(w, id, now, script);
    var record := granted.value.value;
    var start := ApprovedStart(record, recomputed, outcome);
    assert start.status == Running;
    var out := Ran(x.cfg, x.policy, start, script);
    var first := [ClaimApproved(c, id, now), Execute(c, recomputed, outcome)];
    var w2 := After(x, w, first);
    hide ApprovedStart, Ran, RunSteps, Next, Enabled, Legal, After, Approvals.Claimed, ToolEvents, StillValid, StoredAfter;
    LoopRefines(x, w2, c, script);
    Join(x, w, first, RunSteps(x, c, start, script));
    var landed := Landed(x, w2, c, out);
    assert w2.going - {c} == w.going && w.finishing - {c} == w.finishing;
    assert w.log + [] == w.log;
    if CrashedIn(out) {
      assert first + RunSteps(x, c, start, script) + [] == first + RunSteps(x, c, start, script);
    } else {
      RecordEnds(x, w2, c, id, out, later);
      OneStep(x, landed, Step.Record(c, later));
      Join(x, w, first + RunSteps(x, c, start, script), [Step.Record(c, later)]);
    }
  }

  lemma ClaimKeepsIds(w: World, id: Id, now: int, script: Script)
    requires FreshIds(w, script) && id in w.store
    ensures forall k :: script(k).approvalId !in Approvals.Claimed(w.store, id, Approvals.Approved, now).0
  {
    assert Approvals.Claimed(w.store, id, Approvals.Approved, now).0.Keys == w.store.Keys;
  }

  function RejectionSteps(x: Setup, c: Caller, id: Id, record: Approvals.Record, script: Script, now: int, later: int): seq<Step>
  {
    var start := RejectedStart(record);
    [ClaimRejected(c, id, now)] + RunSteps(x, c, start, script)
    + if CrashedIn(Ran(x.cfg, x.policy, start, script)) then [] else [Step.Record(c, later)]
  }

  lemma ClaimRejection(x: Setup, w: World, c: Caller, id: Id, now: int)
    requires NewCaller(w, c) && Approvals.Claimable(w.store, id, Approvals.Rejected, now)
    ensures var (claimed, granted) := Approvals.Claimed(w.store, id, Approvals.Rejected, now);
      && granted.Ok? && granted.value.Some? && claimed.Keys == w.store.Keys
      && var start := RejectedStart(granted.value.value);
         && start.status == Running && Enabled(x, w, ClaimRejected(c, id, now))
         && Next(x, w, ClaimRejected(c, id, now)) ==
            w.(store := claimed, going := w.going[c := Going(start, Some(id), false)], log := w.log + [RejectionResumed(start.runId, id)])
  {
    assert Approvals.Claimed(w.store, id, Approvals.Rejected, now).0.Keys == w.store.Keys;
  }

  /** So is resuming a rejected one: nothing is executed for it, and the rejection is logged. */
  lemma RejectionRefines(x: Setup, w: World, c: Caller, id: Id, script: Script, now: int, later: int)
    requires NewCaller(w, c) && Approvals.Claimable(w.store, id, Approvals.Rejected, now) && FreshIds(w, script)
    ensures var (claimed, granted) := Approvals.Claimed(w.store, id, Approvals.Rejected, now);
      && granted.Ok? && granted.value.Some?
      && var record := granted.value.value;
         var start := RejectedStart(record);
         var out := Ran(x.cfg, x.policy, start, script);
         var steps := RejectionSteps(x, c, id, record, script, now, later);
         && Legal(x, w, steps)
         && var w' := After(x, w, steps);
            && w'.store == StoreAfterResume(claimed, x.ttl, id, out, later)
            && w'.log == w.log + [RejectionResumed(start.runId, id)] + ToolEvents(start.runId, out.effects)
            && w'.going == w.going && w'.finishing == w.finishing && w'.runs == w.runs
  {
    var (claimed, granted) := Approvals.Claimed(w.store, id, Approvals.Rejected, now);
    ClaimRejection(x, w, c, id, now);
    var record := granted.value.value;
    var start := RejectedStart(record);
    var out := Ran(x.cfg, x.policy, start, script);
    var first := [ClaimRejected(c, id, now)];
    OneStep(x, w, ClaimRejected(c, id, now));
    var w1 := After(x, w, first);
    hide RejectedStart, Ran, RunSteps, Next, Enabled, Legal, After, Approvals.Claimed, ToolEvents, StoredAfter, Approvals.Claimable;
    LoopRefines(x, w1, c, script);
    Join(x, w, first, RunSteps(x, c, start, script));
    var landed := Landed(x, w1, c, out);
    assert w1.going - {c} == w.going && w.finishing - {c} == w.finishing;
    if CrashedIn(out) {
      assert first + RunSteps(x, c, start, script) + [] == first + RunSteps(x, c, start, script);
    } else {
      RecordEnds(x, w1, c, id, out, later);
      OneStep(x, landed, Step.Record(c, later));
      Join(x, w, first + RunSteps(x, c, start, script), [Step.Record(c, later)]);
    }
  }
}
