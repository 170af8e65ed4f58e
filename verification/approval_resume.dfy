/**
 What pausing stores, what resuming starts from, and what may run on an approval's strength
 (backend/app/runtime/runner.py:532-628).
 */
module ApprovalResume {
  import opened Common
  import opened AgentStates
  import opened AgentRun
  import opened AgentRunners
  import opened ApprovalProtocol
  import Approvals
  import Planning
  import Retry

  /**
   A pause stores a pending request for exactly the action asked for, and a checkpoint of the run as it
   was, still running, with that call counted: resuming it neither counts it again nor gives it back.
   */
  lemma PauseStores(cfg: Config, policy: Retry.RetryPolicy, s: RunState, turn: Turn, store: Approvals.Store, ttl: Option<int>)
    requires s.status == Running && Iterated(cfg, policy, s, turn).1.Paused?
    ensures turn.action.UseTool? && turn.approvalId in Stored(store, ttl, Iterated(cfg, policy, s, turn).0, Iterated(cfg, policy, s, turn).1)
    ensures var record := Stored(store, ttl, Iterated(cfg, policy, s, turn).0, Iterated(cfg, policy, s, turn).1)[turn.approvalId];
      var asked := Request(turn.action.tool, turn.action.arguments);
      && record.request.runId == s.runId && record.request.fingerprint == asked && record.request.createdAt == turn.at
      && record.request.status == Approvals.Pending && record.request.startedAt.None?
      && record.checkpoint.action == asked && record.checkpoint.fingerprint == asked
      && record.checkpoint.state ==
         s.(iterations := s.iterations + 1, toolCalls := s.toolCalls + 1, fingerprints := s.fingerprints + [asked])
  {
    hide Trailing, Retry.Succeeds;
  }

  /**
   A resumed approval goes on from its checkpoint with one observation more. The observation shows
   the tool's result only if the two stored fingerprints agree with each other and with the one computed
   afresh; otherwise it is a failure. Nothing is counted for it.
   */
  lemma ApprovedStartTells(record: Approvals.Record, recomputed: Option<Request>, result: ToolResult)
    ensures var c, s := record.checkpoint, ApprovedStart(record, recomputed, result);
      var agreed := recomputed.Some? && recomputed.value == c.fingerprint && record.request.fingerprint == c.fingerprint;
      && s.status == Running && s == c.state.(observations := s.observations, status := Running)
      && |s.observations| == |c.state.observations| + 1 && c.state.observations <= s.observations
      && var seen := s.observations[|c.state.observations|];
         && seen.source == c.action.tool && seen.iteration == c.state.iterations && seen.sequence == |s.observations|
         && seen.success == (agreed && result.success)
         && seen.output == if agreed then result.output else Planning.NotDict
  {
  }

  /** A resumed rejection goes on with a failed observation of the tool and one error more, and nothing else. */
  lemma RejectedStartTells(record: Approvals.Record)
    ensures var c, s := record.checkpoint, RejectedStart(record);
      && s == c.state.(observations := s.observations, status := Running, errors := c.state.errors + 1)
      && |s.observations| == |c.state.observations| + 1 && c.state.observations <= s.observations
      && var seen := s.observations[|c.state.observations|];
         seen.source == c.action.tool && !seen.success && seen.output == Planning.NotDict
         && seen.iteration == c.state.iterations && seen.sequence == |s.observations|
  {
  }

  // ---- over whole runs of the protocol ----

  /** Some caller's execution step had computed this very request afresh. */
  ghost predicate RecomputedIn(steps: seq<Step>, request: Request)
  {
    exists k :: 0 <= k < |steps| && Recomputes(steps[k], request)
  }

  predicate Recomputes(step: Step, request: Request)
  {
    step.Execute? && step.recomputed == Some(request)
  }

  /** Every approved execution logged since then is of a request that some caller had computed afresh. */
  ghost predicate AllRecomputed(steps: seq<Step>, before: seq<Event>, log: seq<Event>)
  {
    before <= log && forall i :: |before| <= i < |log| && log[i].ApprovedRan? ==> RecomputedIn(steps, log[i].request)
  }

  lemma ExecutionLogs(w: World, c: Caller, recomputed: Option<Request>, outcome: ToolResult)
    requires AllIntact(w) && c in w.going && w.going[c].origin.Some? && w.going[c].origin.value in w.store
    ensures var log := Executing(w, c, recomputed, outcome).log;
      w.log <= log && forall i :: |w.log| <= i < |log| && log[i].ApprovedRan? ==> recomputed == Some(log[i].request)
  {
    hide ApprovedStart;
    assert Intact(w, w.going[c].origin.value);
  }

  lemma StepLogs(x: Setup, w: World, step: Step)
    requires Enabled(x, w, step) && AllIntact(w)
    ensures AllRecomputed([step], w.log, Next(x, w, step).log)
  {
    hide Iterated, Executing, RejectedStart;
    match step
    case Execute(c, recomputed, outcome) =>
      ExecutionLogs(w, c, recomputed, outcome);
      assert forall request :: recomputed == Some(request) ==> Recomputes([step][0], request);
    case _ =>
  }

  lemma LogsJoin(step: Step, rest: seq<Step>, before: seq<Event>, mid: seq<Event>, log: seq<Event>)
    requires AllRecomputed([step], before, mid) && AllRecomputed(rest, mid, log)
    ensures AllRecomputed([step] + rest, before, log)
  {
    hide Recomputes;
    var steps := [step] + rest;
    forall i | |before| <= i < |log| && log[i].ApprovedRan?
      ensures RecomputedIn(steps, log[i].request)
    {
      if i < |mid| {
        assert mid[i] == log[i];
        assert Recomputes(steps[0], log[i].request);
      } else {
        var k :| 0 <= k < |rest| && Recomputes(rest[k], log[i].request);
        assert steps[k + 1] == rest[k];
      }
    }
  }

  lemma {:induction false} LogsRecomputed(x: Setup, w: World, steps: seq<Step>)
    requires ValidLimits(x.cfg.limits) && Invariant(x.cfg.limits, w) && Legal(x, w, steps)
    ensures AllRecomputed(steps, w.log, After(x, w, steps).log)
    decreases |steps|
  {
    if steps != [] {
      assert AllIntact(w);
      hide Next, Enabled, Invariant, AllRecomputed, AllIntact;
      NextKeeps(x, w, steps[0]);
      StepLogs(x, w, steps[0]);
      LogsRecomputed(x, Next(x, w, steps[0]), steps[1..]);
      LogsJoin(steps[0], steps[1..], w.log, Next(x, w, steps[0]).log, After(x, w, steps).log);
      assert [steps[0]] + steps[1..] == steps;
    }
  }

  /** Whoever resumes, claims and crashes: an approved action runs only if a caller resuming it computed the same action afresh. */
  lemma OnlyRecomputedRuns(x: Setup, steps: seq<Step>, i: nat)
    requires ValidLimits(x.cfg.limits) && Legal(x, NOTHING, steps)
    requires i < |After(x, NOTHING, steps).log| && After(x, NOTHING, steps).log[i].ApprovedRan?
    ensures exists k :: 0 <= k < |steps| && Recomputes(steps[k], After(x, NOTHING, steps).log[i].request)
  {
    NothingKept(x);
    LogsRecomputed(x, NOTHING, steps);
    hide After, Legal;
  }
}
