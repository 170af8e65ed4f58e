/**
 The runner itself: methods that change the run's state, the approval store and the world step by
 step (backend/app/runtime/runner.py, backend/app/runtime/control.py), each proved against the
 state machine of module AgentRun.
 */
module AgentRunners {
  import opened Common
  import opened AgentStates
  import opened AgentRun
  import Approvals
  import Planning
  import Retry

  /** The world tools act on, as the list of requests that ran, with or without approval. */
  class ToolExecutor {
    var executed: seq<Request>

    constructor ()
      ensures executed == []
    {
      executed := [];
    }

    method Execute(request: Request, outcome: ToolResult) returns (result: ToolResult)
      modifies this
      ensures executed == old(executed) + [request] && result == outcome
    {
      executed := executed + [request];
      return outcome;
    }
  }

  function ExecutedIn(effects: seq<Effect>): seq<Request>
  {
    if effects == [] then []
    else
      var front, last := ExecutedIn(effects[..|effects| - 1]), effects[|effects| - 1];
      if last.Executed? then front + [last.request] else front
  }

  /** Pausing stores the request with a checkpoint of the run as it was before it began to wait. */
  function Stored(store: Approvals.Store, ttl: Option<int>, s: RunState, effect: Effect): Approvals.Store
  {
    if effect.Paused? then
      Approvals.Created(
        store, ttl, effect.approvalId,
        Approvals.ApprovalRequest(s.runId, effect.request, effect.at, None, Approvals.Pending, None, None, None),
        Approvals.Checkpoint(s.(status := effect.was), effect.request, effect.request))
    else store
  }

  function StoredAfter(store: Approvals.Store, ttl: Option<int>, out: Outcome): Approvals.Store
  {
    if out.effects == [] then store else Stored(store, ttl, out.state, out.effects[|out.effects| - 1])
  }

  predicate CrashedIn(out: Outcome)
  {
    out.effects != [] && out.effects[|out.effects| - 1].Crashed?
  }

  // ---- resuming ----

  /** The approved action is the one the approver saw: the fingerprints agree and still can be recomputed. */
  predicate StillValid(record: Approvals.Record, recomputed: Option<Request>)
  {
    record.request.fingerprint == record.checkpoint.fingerprint && recomputed == Some(record.checkpoint.fingerprint)
  }

  function ApprovedStart(record: Approvals.Record, recomputed: Option<Request>, result: ToolResult): RunState
  {
    var c := record.checkpoint;
    var seen :=
      if StillValid(record, recomputed) then Observed(c.state, c.action.tool, result.success, result.output)
      else Observed(c.state, c.action.tool, false, Planning.NotDict);
    seen.(status := Running)
  }

  function RejectedStart(record: Approvals.Record): RunState
  {
    var c := record.checkpoint;
    var seen := Observed(c.state, c.action.tool, false, Planning.NotDict);
    seen.(errors := seen.errors + 1, status := Running)
  }

  /**
   Resuming a rejection counts an error like any other but never stops the run for it: it ends
   where an ordinary error would exactly when the count stays under the limit.
   */
  lemma RejectionStopsLikeErrorIff(l: Limits, record: Approvals.Record)
    ensures var c := record.checkpoint;
      var usual := WithError(l, Observed(c.state.(status := Running), c.action.tool, false, Planning.NotDict));
      && RejectedStart(record).status == Running && RejectedStart(record).errors == c.state.errors + 1
      && (RejectedStart(record) == usual <==> c.state.errors + 1 < l.maxErrors)
  {
    hide StopAnswer;
  }

  /** The store once a claimed approval's run went on from this state; a crash leaves it uncompleted. */
  function StoreAfterResume(store: Approvals.Store, ttl: Option<int>, id: Approvals.Id, out: Outcome, later: int): Approvals.Store
  {
    var paused := StoredAfter(store, ttl, out);
    if CrashedIn(out) then paused else Approvals.Finished(paused, id, out.state, later).0
  }

  datatype Resumption = NoStore | Failure | Already(state: RunState) | Went(state: RunState)

  class AgentRunner {
    const cfg: Config
    const policy: Retry.RetryPolicy
    const executor: ToolExecutor
    const approvals: Approvals.FileApprovalStore?

    predicate Valid()
    {
      cfg.hasApprovalStore <==> approvals != null
    }

    /** What the store holds; nothing when the runner has none. */
    ghost function Entries(): Approvals.Store
      reads approvals
    {
      if approvals == null then map[] else approvals.entries
    }

    ghost function Ttl(): Option<int>
    {
      if approvals == null then None else approvals.ttl
    }

    constructor (cfg: Config, policy: Retry.RetryPolicy, executor: ToolExecutor, approvals: Approvals.FileApprovalStore?)
      requires cfg.hasApprovalStore <==> approvals != null
      ensures Valid() && this.cfg == cfg && this.policy == policy && this.executor == executor && this.approvals == approvals
    {
      this.cfg, this.policy, this.executor, this.approvals := cfg, policy, executor, approvals;
    }

    method Stop(state: AgentState, reason: StopReason)
      modifies state
      ensures state.View() == Stopped(old(state.View()), reason)
    {
      hide StopAnswer;
      state.completed := false;
      state.status := Failed;
      state.stopReason := Some(reason);
      state.finalAnswer := Some(StopAnswer(reason));
    }

    method RecordRecoverableError(state: AgentState)
      modifies state
      ensures state.View() == WithError(cfg.limits, old(state.View()))
    {
      state.errors := state.errors + 1;
      if state.errors >= cfg.limits.maxErrors {
        Stop(state, TooManyErrors);
      }
    }

    method RecordObservation(state: AgentState, source: string, success: bool, output: Planning.ToolOutput)
      modifies state
      ensures state.View() == Observed(old(state.View()), source, success, output)
    {
      state.observations := state.observations + [Planning.Observation(source, success, output, state.iterations, |state.observations| + 1)];
    }

    method ConsecutiveDuplicateCount(state: AgentState, request: Request) returns (count: nat)
      ensures count == Trailing(state.fingerprints, request)
    {
      var fingerprints := state.fingerprints;
      count := 0;
      assert fingerprints[..|fingerprints|] == fingerprints;
      while count < |fingerprints| && fingerprints[|fingerprints| - 1 - count] == request
        invariant count <= |fingerprints|
        invariant Trailing(fingerprints, request) == count + Trailing(fingerprints[..|fingerprints| - count], request)
      {
        var rest := fingerprints[..|fingerprints| - count];
        assert rest[..|rest| - 1] == fingerprints[..|fingerprints| - count - 1];
        count := count + 1;
      }
    }

    method UpdateInvestigationPlan(state: AgentState, output: Planning.ToolOutput)
      modifies state
      ensures state.View() == Planned(old(state.View()), UPDATE_PLAN, ToolResult(true, output))
    {
      if !output.Dict? || output.plan.None? {
        return;
      }
      var reconciled := Planning.ReconcilePlan(output.plan.value, state.observations);
      state.plan := Some(reconciled);
    }

    method PauseForApproval(state: AgentState, request: Request, turn: Turn) returns (effect: Effect)
      requires Valid() && turn.policy.NeedsApproval?
      modifies state, approvals
      ensures effect == if cfg.hasApprovalStore && turn.policy.knownCapability then Paused(request, turn.approvalId, turn.at, old(state.status)) else Unavailable(request)
      ensures state.View() == if effect.Paused? then old(state.View()).(status := WaitingForApproval)
                              else Observed(old(state.View()), request.tool, false, Planning.NotDict)
      ensures Entries() == Stored(old(Entries()), Ttl(), state.View(), effect)
    {
      if approvals == null || !turn.policy.knownCapability {
        RecordObservation(state, request.tool, false, Planning.NotDict);
        return Unavailable(request);
      }
      approvals.Create(
        turn.approvalId,
        Approvals.ApprovalRequest(state.runId, request, turn.at, None, Approvals.Pending, None, None, None),
        Approvals.Checkpoint(state.View(), request, request));
      effect := Paused(request, turn.approvalId, turn.at, state.status);
      state.status := WaitingForApproval;
    }

    method UseToolAction(state: AgentState, request: Request, turn: Turn) returns (effect: Effect)
      requires Valid()
      modifies state, executor, approvals
      ensures (state.View(), effect) == ToolUsed(cfg, old(state.View()), request, turn)
      ensures executor.executed == old(executor.executed) + if effect.Executed? then [request] else []
      ensures Entries() == Stored(old(Entries()), Ttl(), state.View(), effect)
    {
      if state.toolCalls >= cfg.limits.maxToolCalls {
        Stop(state, MaxToolCalls);
        return Quiet;
      }
      var duplicates := ConsecutiveDuplicateCount(state, request);
      if duplicates >= cfg.limits.maxDuplicates {
        RecordObservation(state, request.tool, false, Planning.NotDict);
        return Quiet;
      }
      state.fingerprints := state.fingerprints + [request];
      state.toolCalls := state.toolCalls + 1;
      if turn.policy.NeedsApproval? {
        effect := PauseForApproval(state, request, turn);
        return;
      }
      var result := executor.Execute(request, turn.result);
      if result.success && request.tool == UPDATE_PLAN && result.output.Dict? {
        UpdateInvestigationPlan(state, result.output);
      }
      RecordObservation(state, request.tool, result.success, result.output);
      if !result.success {
        RecordRecoverableError(state);
      }
      return Executed(request);
    }

    method LoadSkillAction(state: AgentState, skill: string, load: SkillLoad) returns (effect: Effect)
      modifies state
      ensures (state.View(), effect) == SkillLoaded(cfg, old(state.View()), skill, load)
    {
      if skill !in state.loadedSkills {
        match load
        case UnknownSkill =>
          RecordObservation(state, "skill:" + skill, false, Planning.NotDict);
          RecordRecoverableError(state);
          return Quiet;
        case LoadFailed => return Crashed;
        case Loaded(text) => state.loadedSkills := state.loadedSkills[skill := text];
      }
      state.fingerprints := [];
      return SkillReady;
    }

    method FinishAction(state: AgentState, answer: string, stated: seq<string>)
      modifies state
      ensures state.View() == FinishTried(cfg, old(state.View()), answer, stated)
    {
      var evaluation := Evaluation(cfg.limits, state.View());
      if !evaluation.accept {
        state.redirects := state.redirects + 1;
        RecordObservation(state, "investigation_plan", false, Planning.NotDict);
        return;
      }
      state.finalAnswer := Some(answer);
      state.caveats := FinalCaveats(cfg.text, stated, evaluation.missing);
      state.completed := true;
      state.status := Completed;
      state.stopReason := Some(ByCompletion);
    }

    method ApplyAction(state: AgentState, turn: Turn) returns (effect: Effect)
      requires Valid()
      modifies state, executor, approvals
      ensures (state.View(), effect) == Applied(cfg, old(state.View()), turn)
      ensures executor.executed == old(executor.executed) + if effect.Executed? then [effect.request] else []
      ensures Entries() == Stored(old(Entries()), Ttl(), state.View(), effect)
    {
      match turn.action
      case UseTool(tool, arguments) => effect := UseToolAction(state, Request(tool, arguments), turn);
      case LoadSkill(skill) => effect := LoadSkillAction(state, skill, turn.skill);
      case Finish(answer, stated) =>
        FinishAction(state, answer, stated);
        effect := Quiet;
      case _ =>
        var d := turn.delegation;
        var succeeded := !d.Refused? && d.success;
        RecordObservation(state, DelegationSource(d), succeeded, Planning.NotDict);
        if !succeeded {
          RecordRecoverableError(state);
        }
        effect := Quiet;
    }

    /** One pass of the loop body: ask the model, retrying as the policy says, and apply what it chose. */
    method Iterate(state: AgentState, turn: Turn) returns (effect: Effect)
      requires Valid()
      modifies state, executor, approvals
      ensures (state.View(), effect) == Iterated(cfg, policy, old(state.View()), turn)
      ensures executor.executed == old(executor.executed) + if effect.Executed? then [effect.request] else []
      ensures Entries() == Stored(old(Entries()), Ttl(), state.View(), effect)
    {
      hide Applied, Stored;
      var attempt, failure := Retry.CallWithRetries(policy, "llm", turn.attempts);
      if failure.Some? {
        NothingElseStored(Entries(), Ttl(), state.View(), Crashed);
        return Crashed;
      }
      state.iterations := state.iterations + 1;
      effect := ApplyAction(state, turn);
    }

    /** The loop: iterate until the run is over or the iterations are spent. */
    method Loop(state: AgentState, script: Script) returns (effects: seq<Effect>)
      requires Valid() && state.status != WaitingForApproval
      modifies state, executor, approvals
      ensures Ended(cfg, policy, script, Began(old(state.View()), old(executor.executed), old(Entries()), Ttl()),
                    state.View(), effects, executor.executed, Entries())
    {
      ghost var began := Began(state.View(), executor.executed, Entries(), Ttl());
      effects := [];
      NothingYet(cfg, policy, script, began);
      hide Iterated, Ran, Stored, Stopped, Underway, Ended;
      while state.iterations < cfg.limits.maxIterations
        invariant state.status != WaitingForApproval
        invariant Underway(cfg, policy, script, began, state.View(), effects, executor.executed, Entries())
        decreases cfg.limits.maxIterations - state.iterations
      {
        ghost var before, executed, entries := state.View(), executor.executed, Entries();
        var effect := Iterate(state, script(state.iterations));
        PassStep(cfg, policy, script, began, before, effects, executed, entries, state.View(), effect, executor.executed, Entries());
        effects := effects + [effect];
        if effect.Crashed? || state.status == WaitingForApproval || state.completed || state.stopReason.Some? {
          return;
        }
      }
      RanOut(cfg, policy, script, began, state.View(), effects, executor.executed, Entries());
      Stop(state, MaxIterations);
    }

    method Run(state: AgentState, script: Script) returns (effects: seq<Effect>)
      requires Valid()
      modifies state, executor, approvals
      ensures old(state.status) == WaitingForApproval ==>
        effects == [] && state.View() == old(state.View()) && executor.executed == old(executor.executed) && Entries() == old(Entries())
      ensures old(state.status) != WaitingForApproval ==>
        && Outcome(state.View(), effects) == Ran(cfg, policy, old(state.View()), script)
        && executor.executed == old(executor.executed) + ExecutedIn(effects)
        && Entries() == StoredAfter(old(Entries()), Ttl(), Outcome(state.View(), effects))
    {
      hide Ran, StoredAfter, ExecutedIn;
      if state.status == WaitingForApproval {
        return [];
      }
      effects := Loop(state, script);
    }

    /** Runs on from where a resumed approval left off, and records where that ended unless it failed. */
    method GoOn(id: Approvals.Id, state: AgentState, script: Script, later: int) returns (result: Resumption)
      requires Valid() && approvals != null && state.status == Running
      modifies state, executor, approvals
      ensures var out := Ran(cfg, policy, old(state.View()), script);
        && approvals.entries == StoreAfterResume(old(approvals.entries), approvals.ttl, id, out, later)
        && executor.executed == old(executor.executed) + ExecutedIn(out.effects)
        && result == if CrashedIn(out) then Failure else Went(out.state)
    {
      var effects := Run(state, script);
      if effects != [] && effects[|effects| - 1].Crashed? {
        return Failure;
      }
      var _ := approvals.CompleteExecution(id, state.View(), later);
      return Went(state.View());
    }

    /** Only the caller whose claim is granted runs the approved action, and runs it once. */
    method ResumeApproval(
      id: Approvals.Id, recomputed: Option<Request>, outcome: ToolResult, script: Script, now: int, later: int) returns (result: Resumption)
      requires Valid()
      modifies executor, approvals
      ensures approvals == null ==> result == NoStore && executor.executed == old(executor.executed)
      ensures approvals != null ==>
        var (claimed, granted) := Approvals.Claimed(old(approvals.entries), id, Approvals.Approved, now);
        match granted
        case Raised(_) => result == Failure && approvals.entries == claimed && executor.executed == old(executor.executed)
        case Ok(None) =>
          && result == Already(claimed[id].checkpoint.state) && approvals.entries == claimed
          && executor.executed == old(executor.executed)
        case Ok(Some(record)) =>
          var out := Ran(cfg, policy, ApprovedStart(record, recomputed, outcome), script);
          && approvals.entries == StoreAfterResume(claimed, approvals.ttl, id, out, later)
          && executor.executed == old(executor.executed)
             + (if StillValid(record, recomputed) then [record.checkpoint.action] else []) + ExecutedIn(out.effects)
          && result == if CrashedIn(out) then Failure else Went(out.state)
    {
      hide Ran, StoreAfterResume, ExecutedIn, CrashedIn;
      if approvals == null {
        return NoStore;
      }
      var claim := approvals.Claim(id, Approvals.Approved, now);
      if claim.Raised? {
        return Failure;
      }
      if claim.value.None? {
        return Already(approvals.entries[id].checkpoint.state);
      }
      var record := claim.value.value;
      var state := new AgentState.FromView(record.checkpoint.state);
      if record.request.fingerprint != record.checkpoint.fingerprint || recomputed != Some(record.checkpoint.fingerprint) {
        RecordObservation(state, record.checkpoint.action.tool, false, Planning.NotDict);
      } else {
        var answered := executor.Execute(record.checkpoint.action, outcome);
        RecordObservation(state, record.checkpoint.action.tool, answered.success, answered.output);
      }
      state.status := Running;
      assert old(executor.executed) + [] == old(executor.executed);
      result := GoOn(id, state, script, later);
    }

    /** A rejection becomes an observation and one more error, and the model chooses again. */
    method ResumeRejection(id: Approvals.Id, script: Script, now: int, later: int) returns (result: Resumption)
      requires Valid()
      modifies executor, approvals
      ensures approvals == null ==> result == NoStore && executor.executed == old(executor.executed)
      ensures approvals != null ==>
        var (claimed, granted) := Approvals.Claimed(old(approvals.entries), id, Approvals.Rejected, now);
        match granted
        case Raised(_) => result == Failure && approvals.entries == claimed && executor.executed == old(executor.executed)
        case Ok(None) =>
          && result == Already(claimed[id].checkpoint.state) && approvals.entries == claimed
          && executor.executed == old(executor.executed)
        case Ok(Some(record)) =>
          var out := Ran(cfg, policy, RejectedStart(record), script);
          && approvals.entries == StoreAfterResume(claimed, approvals.ttl, id, out, later)
          && executor.executed == old(executor.executed) + ExecutedIn(out.effects)
          && result == if CrashedIn(out) then Failure else Went(out.state)
    {
      hide Ran, StoreAfterResume, ExecutedIn, CrashedIn;
      if approvals == null {
        return NoStore;
      }
      var claim := approvals.Claim(id, Approvals.Rejected, now);
      if claim.Raised? {
        return Failure;
      }
      if claim.value.None? {
        return Already(approvals.entries[id].checkpoint.state);
      }
      var record := claim.value.value;
      var state := new AgentState.FromView(record.checkpoint.state);
      RecordObservation(state, record.checkpoint.action.tool, false, Planning.NotDict);
      state.errors := state.errors + 1;
      state.status := Running;
      assert old(executor.executed) + [] == old(executor.executed);
      result := GoOn(id, state, script, later);
    }
  }

  lemma NothingElseStored(store: Approvals.Store, ttl: Option<int>, s: RunState, effect: Effect)
    requires !effect.Paused?
    ensures Stored(store, ttl, s, effect) == store
  {
  }

  // ---- where the loop stands ----

  /** The run, the executed requests and the store when the loop began. */
  datatype Beginning = Began(state: RunState, executed: seq<Request>, store: Approvals.Store, ttl: Option<int>)

  function Joined(effects: seq<Effect>, out: Outcome): Outcome
  {
    Outcome(out.state, effects + out.effects)
  }

  ghost predicate Underway(
    cfg: Config, policy: Retry.RetryPolicy, script: Script, began: Beginning,
    s: RunState, effects: seq<Effect>, executed: seq<Request>, store: Approvals.Store)
  {
    && s.status != WaitingForApproval
    && Ran(cfg, policy, began.state, script) == Joined(effects, Ran(cfg, policy, s, script))
    && executed == began.executed + ExecutedIn(effects)
    && store == began.store
    && (effects == [] || !effects[|effects| - 1].Paused?)
  }

  ghost predicate Ended(
    cfg: Config, policy: Retry.RetryPolicy, script: Script, began: Beginning,
    s: RunState, effects: seq<Effect>, executed: seq<Request>, store: Approvals.Store)
  {
    && Outcome(s, effects) == Ran(cfg, policy, began.state, script)
    && executed == began.executed + ExecutedIn(effects)
    && store == StoredAfter(began.store, began.ttl, Outcome(s, effects))
  }

  lemma NothingYet(cfg: Config, policy: Retry.RetryPolicy, script: Script, began: Beginning)
    requires began.state.status != WaitingForApproval
    ensures Underway(cfg, policy, script, began, began.state, [], began.executed, began.store)
  {
    hide Ran;
  }

  lemma RanUnfolds(cfg: Config, policy: Retry.RetryPolicy, s: RunState, script: Script)
    requires s.iterations < cfg.limits.maxIterations
    ensures var (s', effect) := Iterated(cfg, policy, s, script(s.iterations));
      var out := Ran(cfg, policy, s, script);
      if effect.Crashed? || Over(s') then out == Outcome(s', [effect])
      else out == Joined([effect], Ran(cfg, policy, s', script))
  {
    hide Iterated;
  }

  lemma ExecutedMore(effects: seq<Effect>, effect: Effect)
    ensures ExecutedIn(effects + [effect]) == ExecutedIn(effects) + if effect.Executed? then [effect.request] else []
  {
    assert (effects + [effect])[..|effects|] == effects;
  }

  lemma PassEnds(
    cfg: Config, policy: Retry.RetryPolicy, script: Script, began: Beginning,
    s: RunState, effects: seq<Effect>, executed: seq<Request>, store: Approvals.Store,
    s': RunState, effect: Effect, executed': seq<Request>, store': Approvals.Store)
    requires Underway(cfg, policy, script, began, s, effects, executed, store) && s.iterations < cfg.limits.maxIterations
    requires (s', effect) == Iterated(cfg, policy, s, script(s.iterations))
    requires executed' == executed + if effect.Executed? then [effect.request] else []
    requires store' == Stored(store, began.ttl, s', effect)
    requires effect.Crashed? || Over(s')
    ensures Ended(cfg, policy, script, began, s', effects + [effect], executed', store')
  {
    hide Iterated, Ran, ExecutedIn, Stored, Over;
    RanUnfolds(cfg, policy, s, script);
    ExecutedMore(effects, effect);
    assert effects + [effect] == Joined(effects, Outcome(s', [effect])).effects;
  }

  lemma PassGoesOn(
    cfg: Config, policy: Retry.RetryPolicy, script: Script, began: Beginning,
    s: RunState, effects: seq<Effect>, executed: seq<Request>, store: Approvals.Store,
    s': RunState, effect: Effect, executed': seq<Request>, store': Approvals.Store)
    requires Underway(cfg, policy, script, began, s, effects, executed, store) && s.iterations < cfg.limits.maxIterations
    requires (s', effect) == Iterated(cfg, policy, s, script(s.iterations))
    requires executed' == executed + if effect.Executed? then [effect.request] else []
    requires store' == Stored(store, began.ttl, s', effect)
    requires !effect.Crashed? && !Over(s')
    ensures Underway(cfg, policy, script, began, s', effects + [effect], executed', store')
  {
    hide Iterated, Ran, ExecutedIn, Stored;
    RanUnfolds(cfg, policy, s, script);
    OneAccounts(cfg, policy, s, script(s.iterations));
    assert s'.status != WaitingForApproval;
    hide Over;
    ExecutedMore(effects, effect);
    NothingElseStored(store, began.ttl, s', effect);
    var rest := Ran(cfg, policy, s', script);
    assert effects + ([effect] + rest.effects) == effects + [effect] + rest.effects;
  }

  /** One pass of the loop either ends it or leaves it under way. */
  lemma PassStep(
    cfg: Config, policy: Retry.RetryPolicy, script: Script, began: Beginning,
    s: RunState, effects: seq<Effect>, executed: seq<Request>, store: Approvals.Store,
    s': RunState, effect: Effect, executed': seq<Request>, store': Approvals.Store)
    requires Underway(cfg, policy, script, began, s, effects, executed, store) && s.iterations < cfg.limits.maxIterations
    requires (s', effect) == Iterated(cfg, policy, s, script(s.iterations))
    requires executed' == executed + if effect.Executed? then [effect.request] else []
    requires store' == Stored(store, began.ttl, s', effect)
    ensures if effect.Crashed? || Over(s') then Ended(cfg, policy, script, began, s', effects + [effect], executed', store')
      else Underway(cfg, policy, script, began, s', effects + [effect], executed', store') && s'.iterations == s.iterations + 1
  {
    hide Iterated, Underway, Ended, Stored, Over;
    CountsOne(cfg, policy, s, script(s.iterations));
    if effect.Crashed? || Over(s') {
      PassEnds(cfg, policy, script, began, s, effects, executed, store, s', effect, executed', store');
    } else {
      PassGoesOn(cfg, policy, script, began, s, effects, executed, store, s', effect, executed', store');
    }
  }

  lemma RanOut(
    cfg: Config, policy: Retry.RetryPolicy, script: Script, began: Beginning,
    s: RunState, effects: seq<Effect>, executed: seq<Request>, store: Approvals.Store)
    requires Underway(cfg, policy, script, began, s, effects, executed, store) && s.iterations >= cfg.limits.maxIterations
    ensures Ended(cfg, policy, script, began, Stopped(s, MaxIterations), effects, executed, store)
  {
    assert Ran(cfg, policy, s, script) == Outcome(Stopped(s, MaxIterations), []);
    hide Ran, ExecutedIn;
    assert effects + [] == effects;
    if effects != [] {
      NothingElseStored(began.store, began.ttl, Stopped(s, MaxIterations), effects[|effects| - 1]);
    }
  }
}
