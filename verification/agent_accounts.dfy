/**
 What a run's errors, observations, redirects and skills are made of, read off the model's actions and
 the world's answers (backend/app/runtime/runner.py:349-530).
 */
module AgentAccounts {
  import opened Common
  import opened AgentStates
  import opened AgentRun
  import Planning
  import Retry

  /** The iteration went wrong in a way the run recovers from: its tool or its delegation failed, or it named a skill nobody knows. */
  predicate Fails(turn: Turn, effect: Effect)
  {
    && !effect.Crashed?
    && match turn.action
       case UseTool(_, _) => effect.Executed? && !turn.result.success
       case LoadSkill(_) => turn.skill.UnknownSkill? && !effect.SkillReady?
       case Finish(_, _) => false
       case _ => turn.delegation.Refused? || !turn.delegation.success
  }

  /** How many of these iterations, the first of them number `from`, went wrong. */
  function Failures(script: Script, from: nat, effects: seq<Effect>): nat
    decreases |effects|
  {
    if effects == [] then 0
    else (if Fails(script(from), effects[0]) then 1 else 0) + Failures(script, from + 1, effects[1..])
  }

  predicate Tries(turn: Turn, effect: Effect)
  {
    !effect.Crashed? && turn.action.Finish?
  }

  /** How many of these iterations tried to finish. */
  function Finishes(script: Script, from: nat, effects: seq<Effect>): nat
    decreases |effects|
  {
    if effects == [] then 0
    else (if Tries(script(from), effects[0]) then 1 else 0) + Finishes(script, from + 1, effects[1..])
  }

  // ---- errors ----

  lemma OneFailure(cfg: Config, policy: Retry.RetryPolicy, s: RunState, turn: Turn)
    requires s.status == Running && s.stopReason.None?
    ensures var (s', effect) := Iterated(cfg, policy, s, turn);
      && s'.errors == s.errors + (if Fails(turn, effect) then 1 else 0)
      && (s'.stopReason == Some(TooManyErrors) <==> Fails(turn, effect) && s'.errors >= cfg.limits.maxErrors)
      && (s'.stopReason == Some(TooManyErrors) ==> s'.status == Failed && !s'.completed)
      && (!Over(s') ==> s'.stopReason.None?)
  {
    hide Planning.Reconcile, Planning.Missing;
    hide FinalCaveats, DelegationSource, Trailing, Retry.Succeeds;
    match turn.action
    case UseTool(_, _) =>
    case LoadSkill(_) =>
    case Finish(_, _) =>
    case _ =>
  }

  lemma FailuresSplit(script: Script, from: nat, effect: Effect, rest: seq<Effect>)
    ensures Failures(script, from, [effect] + rest) == (if Fails(script(from), effect) then 1 else 0) + Failures(script, from + 1, rest)
    ensures Failures(script, from, [effect]) == (if Fails(script(from), effect) then 1 else 0)
  {
    hide Fails;
    assert ([effect] + rest)[1..] == rest && [effect][1..] == [];
  }

  /** How a run goes on after its first iteration, if it does. */
  lemma RanUnfolds(cfg: Config, policy: Retry.RetryPolicy, s: RunState, script: Script)
    requires s.iterations < cfg.limits.maxIterations
    ensures var (s', effect) := Iterated(cfg, policy, s, script(s.iterations));
      && (effect.Crashed? || Over(s') ==> Ran(cfg, policy, s, script) == Outcome(s', [effect]))
      && (!effect.Crashed? && !Over(s') ==>
          && s'.iterations == s.iterations + 1
          && Ran(cfg, policy, s, script).state == Ran(cfg, policy, s', script).state
          && Ran(cfg, policy, s, script).effects == [effect] + Ran(cfg, policy, s', script).effects)
  {
    hide Iterated, ModelAnswers, Over;
    CountsOne(cfg, policy, s, script(s.iterations));
  }

  /** The errors a run counted from here, and whether they stopped it. */
  ghost predicate CountsAs(l: Limits, s: RunState, script: Script, out: Outcome)
  {
    var failures := Failures(script, s.iterations, out.effects);
    && out.state.errors == s.errors + failures
    && (out.state.stopReason == Some(TooManyErrors) <==> failures > 0 && s.errors + failures >= l.maxErrors)
  }

  lemma CountsNow(l: Limits, s: RunState, s': RunState, effect: Effect, script: Script)
    requires s'.errors == s.errors + (if Fails(script(s.iterations), effect) then 1 else 0)
    requires s'.stopReason == Some(TooManyErrors) <==> Fails(script(s.iterations), effect) && s'.errors >= l.maxErrors
    ensures CountsAs(l, s, script, Outcome(s', [effect]))
  {
    hide Fails;
    FailuresSplit(script, s.iterations, effect, []);
  }

  lemma CountsLater(l: Limits, s: RunState, s': RunState, effect: Effect, script: Script, rest: Outcome)
    requires s'.errors == s.errors + (if Fails(script(s.iterations), effect) then 1 else 0) && s'.iterations == s.iterations + 1
    requires Fails(script(s.iterations), effect) ==> s'.errors < l.maxErrors
    requires CountsAs(l, s', script, rest)
    ensures CountsAs(l, s, script, Outcome(rest.state, [effect] + rest.effects))
  {
    FailuresSplit(script, s.iterations, effect, rest.effects);
    hide Fails, Failures;
  }

  /**
   Over a whole run: the errors counted are the failed tools, the unknown skills and the failed or
   refused delegations, one each; and the run stops for too many errors exactly when one of these
   brings the count to the limit.
   */
  lemma {:induction false} RunCountsFailures(cfg: Config, policy: Retry.RetryPolicy, s: RunState, script: Script)
    requires s.status == Running && s.stopReason.None?
    ensures var out := Ran(cfg, policy, s, script);
      var failures := Failures(script, s.iterations, out.effects);
      && out.state.errors == s.errors + failures
      && (out.state.stopReason == Some(TooManyErrors) <==> failures > 0 && s.errors + failures >= cfg.limits.maxErrors)
  {
    RunCountsAs(cfg, policy, s, script);
    hide Ran, Failures;
  }

  lemma {:induction false} RunCountsAs(cfg: Config, policy: Retry.RetryPolicy, s: RunState, script: Script)
    requires s.status == Running && s.stopReason.None?
    ensures CountsAs(cfg.limits, s, script, Ran(cfg, policy, s, script))
    decreases cfg.limits.maxIterations - s.iterations
  {
    if s.iterations >= cfg.limits.maxIterations {
      assert Ran(cfg, policy, s, script) == Outcome(Stopped(s, MaxIterations), []);
    } else {
      hide Ran, Iterated, Fails, Failures, Over, CountsAs;
      var turn := script(s.iterations);
      RanUnfolds(cfg, policy, s, script);
      OneFailure(cfg, policy, s, turn);
      var step := Iterated(cfg, policy, s, turn);
      if step.1.Crashed? || Over(step.0) {
        CountsNow(cfg.limits, s, step.0, step.1, script);
      } else {
        StillRunning(cfg, policy, s, turn);
        RunCountsAs(cfg, policy, step.0, script);
        CountsLater(cfg.limits, s, step.0, step.1, script, Ran(cfg, policy, step.0, script));
      }
    }
  }

  // ---- observations ----

  /** This observation is what the iteration had to report. */
  predicate Reports(turn: Turn, effect: Effect, iteration: nat, o: Planning.Observation)
  {
    && o.iteration == iteration
    && match turn.action
       case UseTool(tool, _) =>
         o.source == tool && if effect.Executed? then o.success == turn.result.success && o.output == turn.result.output
                             else !o.success && o.output == Planning.NotDict
       case LoadSkill(skill) => o.source == "skill:" + skill && !o.success && o.output == Planning.NotDict && turn.skill.UnknownSkill?
       case Finish(_, _) => o.source == "investigation_plan" && !o.success && o.output == Planning.NotDict
       case _ =>
         && o.success == (!turn.delegation.Refused? && turn.delegation.success) && o.output == Planning.NotDict
         && (turn.delegation.Refused? ==>
             o.source == if turn.delegation.target == "" then "delegation:unknown" else "delegation:" + turn.delegation.target)
         && (turn.delegation.ChildRan? ==> o.source == "subagent")
         && (turn.delegation.BatchRan? ==> o.source == "parallel_subagents")
  }

  /** The iteration leaves no observation: it pauses, makes a skill ready, raises, completes the run, or finds the call limit reached. */
  predicate Silent(effect: Effect, s': RunState)
  {
    effect.Paused? || effect.SkillReady? || effect.Crashed? || s'.completed || s'.stopReason == Some(MaxToolCalls)
  }

  /** One observation more, with the next number, and it is the iteration's report; or none. */
  predicate ReportedOnce(s: RunState, s': RunState, turn: Turn, effect: Effect)
  {
    && (Silent(effect, s') ==> s'.observations == s.observations)
    && (!Silent(effect, s') ==>
        && |s'.observations| == |s.observations| + 1 && s.observations <= s'.observations
        && s'.observations[|s.observations|].sequence == |s.observations| + 1
        && Reports(turn, effect, s.iterations + 1, s'.observations[|s.observations|]))
    && (effect.Executed? ==> !Silent(effect, s'))
  }

  lemma ToolReport(cfg: Config, policy: Retry.RetryPolicy, s: RunState, turn: Turn)
    requires s.status == Running && s.stopReason.None? && !s.completed && turn.action.UseTool?
    ensures var (s', effect) := Iterated(cfg, policy, s, turn); ReportedOnce(s, s', turn, effect)
  {
    hide Planning.Reconcile, Retry.Succeeds;
    hide Trailing, StopAnswer;
  }

  lemma SkillReport(cfg: Config, policy: Retry.RetryPolicy, s: RunState, turn: Turn)
    requires s.status == Running && s.stopReason.None? && !s.completed && turn.action.LoadSkill?
    ensures var (s', effect) := Iterated(cfg, policy, s, turn); ReportedOnce(s, s', turn, effect)
  {
    hide Retry.Succeeds;
    hide StopAnswer;
  }

  lemma FinishReport(cfg: Config, policy: Retry.RetryPolicy, s: RunState, turn: Turn)
    requires s.status == Running && s.stopReason.None? && !s.completed && turn.action.Finish?
    ensures var (s', effect) := Iterated(cfg, policy, s, turn); ReportedOnce(s, s', turn, effect)
  {
    hide Planning.Missing, Retry.Succeeds;
    hide FinalCaveats, Evaluation;
  }

  lemma DelegateReport(cfg: Config, policy: Retry.RetryPolicy, s: RunState, turn: Turn)
    requires s.status == Running && s.stopReason.None? && !s.completed && (turn.action.Delegate? || turn.action.DelegateParallel?)
    ensures var (s', effect) := Iterated(cfg, policy, s, turn); ReportedOnce(s, s', turn, effect)
  {
    hide Retry.Succeeds;
    hide StopAnswer;
  }

  lemma OneReport(cfg: Config, policy: Retry.RetryPolicy, s: RunState, turn: Turn)
    requires s.status == Running && s.stopReason.None? && !s.completed
    ensures var (s', effect) := Iterated(cfg, policy, s, turn); ReportedOnce(s, s', turn, effect)
  {
    hide Iterated, ReportedOnce;
    match turn.action
    case UseTool(_, _) => ToolReport(cfg, policy, s, turn);
    case LoadSkill(_) => SkillReport(cfg, policy, s, turn);
    case Finish(_, _) => FinishReport(cfg, policy, s, turn);
    case _ => DelegateReport(cfg, policy, s, turn);
  }

  /** The k-th observation is the report of the i-th of these iterations, the first of them number `from`. */
  predicate ReportOf(script: Script, from: nat, effects: seq<Effect>, i: nat, observations: seq<Planning.Observation>, k: nat)
  {
    i < |effects| && k < |observations| && observations[k].sequence == k + 1 && Reports(script(from + i), effects[i], from + i + 1, observations[k])
  }

  ghost predicate IsReport(script: Script, from: nat, effects: seq<Effect>, observations: seq<Planning.Observation>, k: nat)
  {
    exists i: nat :: ReportOf(script, from, effects, i, observations, k)
  }

  ghost predicate IsReported(script: Script, from: nat, effects: seq<Effect>, observations: seq<Planning.Observation>, first: nat, i: nat)
  {
    exists k: nat :: first <= k && ReportOf(script, from, effects, i, observations, k)
  }

  /** Every observation from `first` on is the report of an iteration, and every tool that ran is reported. */
  ghost predicate AllReported(script: Script, from: nat, effects: seq<Effect>, observations: seq<Planning.Observation>, first: nat)
  {
    && (forall k: nat :: first <= k < |observations| ==> IsReport(script, from, effects, observations, k))
    && (forall i: nat :: i < |effects| && effects[i].Executed? ==> IsReported(script, from, effects, observations, first, i))
  }

  lemma LaterReports(script: Script, from: nat, effect: Effect, rest: seq<Effect>, i: nat, observations: seq<Planning.Observation>, k: nat)
    requires ReportOf(script, from + 1, rest, i, observations, k)
    ensures ReportOf(script, from, [effect] + rest, i + 1, observations, k)
  {
    hide Reports;
    assert ([effect] + rest)[i + 1] == rest[i];
    assert from + 1 + i == from + (i + 1);
  }

  lemma ReportsJoin(
    script: Script, from: nat, effect: Effect, rest: seq<Effect>, mid: seq<Planning.Observation>,
    observations: seq<Planning.Observation>, first: nat)
    requires first <= |mid| <= first + 1 && mid <= observations
    requires |mid| == first + 1 ==> mid[first].sequence == first + 1 && Reports(script(from), effect, from + 1, mid[first])
    requires effect.Executed? ==> |mid| == first + 1
    requires AllReported(script, from + 1, rest, observations, |mid|)
    ensures AllReported(script, from, [effect] + rest, observations, first)
  {
    hide Reports;
    var effects := [effect] + rest;
    if |mid| == first + 1 {
      assert ReportOf(script, from, effects, 0, observations, first);
    }
    forall k: nat | first <= k < |observations|
      ensures IsReport(script, from, effects, observations, k)
    {
      if k >= |mid| {
        assert IsReport(script, from + 1, rest, observations, k);
        var i: nat :| ReportOf(script, from + 1, rest, i, observations, k);
        LaterReports(script, from, effect, rest, i, observations, k);
      }
    }
    forall i: nat | i < |effects| && effects[i].Executed?
      ensures IsReported(script, from, effects, observations, first, i)
    {
      if i > 0 {
        var j: nat := i - 1;
        assert effects[i] == rest[j];
        assert IsReported(script, from + 1, rest, observations, |mid|, j);
        var k: nat :| |mid| <= k && ReportOf(script, from + 1, rest, j, observations, k);
        LaterReports(script, from, effect, rest, j, observations, k);
      }
    }
  }

  ghost predicate ReportsAs(s: RunState, script: Script, out: Outcome)
  {
    s.observations <= out.state.observations
    && AllReported(script, s.iterations, out.effects, out.state.observations, |s.observations|)
  }

  lemma ReportsNow(s: RunState, s': RunState, effect: Effect, script: Script)
    requires ReportedOnce(s, s', script(s.iterations), effect)
    ensures ReportsAs(s, script, Outcome(s', [effect]))
  {
    hide Silent, Reports, AllReported;
    assert [effect] + [] == [effect];
    NoneReported(script, s.iterations + 1, s'.observations);
    ReportsJoin(script, s.iterations, effect, [], s'.observations, s'.observations, |s.observations|);
  }

  lemma ReportsLater(s: RunState, s': RunState, effect: Effect, script: Script, rest: Outcome)
    requires ReportedOnce(s, s', script(s.iterations), effect) && s'.iterations == s.iterations + 1 && ReportsAs(s', script, rest)
    ensures ReportsAs(s, script, Outcome(rest.state, [effect] + rest.effects))
  {
    hide Silent, Reports, AllReported;
    ReportsJoin(script, s.iterations, effect, rest.effects, s'.observations, rest.state.observations, |s.observations|);
  }

  /**
   Over a whole run: every new observation is the report of one iteration, with that iteration's
   source, success and output, and every tool that ran has its report. No success is made up, and no
   tool's result is lost.
   */
  lemma {:induction false} RunReports(cfg: Config, policy: Retry.RetryPolicy, s: RunState, script: Script)
    requires s.status == Running && s.stopReason.None? && !s.completed
    ensures ReportsAs(s, script, Ran(cfg, policy, s, script))
    decreases cfg.limits.maxIterations - s.iterations
  {
    if s.iterations >= cfg.limits.maxIterations {
      assert Ran(cfg, policy, s, script) == Outcome(Stopped(s, MaxIterations), []);
      NoneReported(script, s.iterations, s.observations);
      hide AllReported;
    } else {
      hide Ran, Iterated, ReportsAs, ReportedOnce, Over;
      var turn := script(s.iterations);
      RanUnfolds(cfg, policy, s, script);
      OneReport(cfg, policy, s, turn);
      var step := Iterated(cfg, policy, s, turn);
      if step.1.Crashed? || Over(step.0) {
        ReportsNow(s, step.0, step.1, script);
      } else {
        GoesOn(cfg, policy, s, turn);
        RunReports(cfg, policy, step.0, script);
        ReportsLater(s, step.0, step.1, script, Ran(cfg, policy, step.0, script));
      }
    }
  }

  lemma GoesOn(cfg: Config, policy: Retry.RetryPolicy, s: RunState, turn: Turn)
    requires s.status == Running && !Over(Iterated(cfg, policy, s, turn).0)
    ensures var s' := Iterated(cfg, policy, s, turn).0; s'.status == Running && s'.stopReason.None? && !s'.completed
  {
    StillRunning(cfg, policy, s, turn);
    hide Iterated;
  }

  lemma NoneReported(script: Script, from: nat, observations: seq<Planning.Observation>)
    ensures AllReported(script, from, [], observations, |observations|)
  {
  }

  // ---- finishing, and the other ways a run ends ----

  lemma FinishesSplit(script: Script, from: nat, effect: Effect, rest: seq<Effect>)
    ensures Finishes(script, from, [effect] + rest) == (if Tries(script(from), effect) then 1 else 0) + Finishes(script, from + 1, rest)
    ensures Finishes(script, from, [effect]) == (if Tries(script(from), effect) then 1 else 0)
  {
    hide Tries;
    assert ([effect] + rest)[1..] == rest && [effect][1..] == [];
  }

  lemma OneEnding(cfg: Config, policy: Retry.RetryPolicy, s: RunState, turn: Turn)
    requires s.status == Running && s.stopReason.None? && !s.completed
    ensures var (s', effect) := Iterated(cfg, policy, s, turn);
      && s'.redirects == s.redirects + (if Tries(turn, effect) && !s'.completed then 1 else 0)
      && (s'.completed <==> s'.stopReason == Some(ByCompletion))
      && (s'.completed ==> Tries(turn, effect) && Answers(turn, s'))
      && (s'.stopReason == Some(MaxToolCalls) <==> FoundNoCallLeft(cfg.limits, turn, effect, s'))
      && s'.stopReason != Some(MaxIterations)
      && (s'.stopReason.Some? && !s'.completed ==> s'.status == Failed)
  {
    hide Planning.Reconcile, Planning.Missing;
    hide FinalCaveats, DelegationSource, Trailing, Retry.Succeeds;
    match turn.action
    case UseTool(_, _) =>
    case LoadSkill(_) =>
    case Finish(_, _) =>
    case _ =>
  }

  /** The last of these iterations, the first of them number `from`. */
  function LastTurn(script: Script, from: nat, effects: seq<Effect>): Turn
    requires effects != []
  {
    script(from + |effects| - 1)
  }

  /** How a run ended, told by its last iteration. */
  ghost predicate EndsAs(l: Limits, s: RunState, script: Script, out: Outcome)
  {
    && out.state.redirects == s.redirects + Finishes(script, s.iterations, out.effects) - (if out.state.completed then 1 else 0)
    && (out.state.completed <==> out.state.stopReason == Some(ByCompletion))
    && (out.state.completed ==> out.effects != [] && Answers(LastTurn(script, s.iterations, out.effects), out.state))
    && (out.state.stopReason == Some(MaxToolCalls) <==>
        out.effects != [] && FoundNoCallLeft(l, LastTurn(script, s.iterations, out.effects), out.effects[|out.effects| - 1], out.state))
    && (out.state.stopReason == Some(MaxIterations) ==> out.state.iterations >= l.maxIterations)
    && (out.state.stopReason.Some? && !out.state.completed ==> out.state.status == Failed)
  }

  /** The run is over with the answer the iteration's finish gave. */
  predicate Answers(turn: Turn, s: RunState)
  {
    turn.action.Finish? && s.finalAnswer == Some(turn.action.answer) && s.status == Completed
  }

  /** A tool was asked for when no call was left. */
  predicate FoundNoCallLeft(l: Limits, turn: Turn, effect: Effect, s: RunState)
  {
    turn.action.UseTool? && effect.Quiet? && s.toolCalls >= l.maxToolCalls
  }

  lemma EndsNow(l: Limits, s: RunState, s': RunState, effect: Effect, script: Script)
    requires s'.redirects == s.redirects + (if Tries(script(s.iterations), effect) && !s'.completed then 1 else 0)
    requires s'.completed <==> s'.stopReason == Some(ByCompletion)
    requires s'.completed ==> Tries(script(s.iterations), effect) && Answers(script(s.iterations), s')
    requires s'.stopReason == Some(MaxToolCalls) <==> FoundNoCallLeft(l, script(s.iterations), effect, s')
    requires s'.stopReason != Some(MaxIterations)
    requires s'.stopReason.Some? && !s'.completed ==> s'.status == Failed
    ensures EndsAs(l, s, script, Outcome(s', [effect]))
  {
    hide Tries, Answers, FoundNoCallLeft;
    FinishesSplit(script, s.iterations, effect, []);
  }

  lemma EndsLater(l: Limits, s: RunState, s': RunState, effect: Effect, script: Script, rest: Outcome)
    requires s'.redirects == s.redirects + (if Tries(script(s.iterations), effect) then 1 else 0)
    requires s'.iterations == s.iterations + 1 && EndsAs(l, s', script, rest)
    requires rest.effects == [] ==> rest.state == Stopped(s', MaxIterations) && !FoundNoCallLeft(l, script(s.iterations), effect, s')
    ensures EndsAs(l, s, script, Outcome(rest.state, [effect] + rest.effects))
  {
    hide Tries, Answers, Finishes;
    FinishesSplit(script, s.iterations, effect, rest.effects);
    if rest.effects != [] {
      hide FoundNoCallLeft;
      assert ([effect] + rest.effects)[|rest.effects|] == rest.effects[|rest.effects| - 1];
    }
  }

  /**
   Every finish the model tries is either sent back, and counted, or completes the run with its answer;
   a run stops at the call limit exactly when a tool was asked for with no call left, and at the
   iteration limit only when no iteration is left.
   */
  lemma {:induction false} RunEnds(cfg: Config, policy: Retry.RetryPolicy, s: RunState, script: Script)
    requires s.status == Running && s.stopReason.None? && !s.completed
    ensures EndsAs(cfg.limits, s, script, Ran(cfg, policy, s, script))
    decreases cfg.limits.maxIterations - s.iterations
  {
    if s.iterations >= cfg.limits.maxIterations {
      assert Ran(cfg, policy, s, script) == Outcome(Stopped(s, MaxIterations), []);
    } else {
      hide Ran, Iterated, Tries, Finishes, EndsAs, Over;
      var turn := script(s.iterations);
      RanUnfolds(cfg, policy, s, script);
      OneEnding(cfg, policy, s, turn);
      var step := Iterated(cfg, policy, s, turn);
      if step.1.Crashed? || Over(step.0) {
        EndsNow(cfg.limits, s, step.0, step.1, script);
      } else {
        GoesOn(cfg, policy, s, turn);
        RunEnds(cfg, policy, step.0, script);
        NoEffectsLeft(cfg, policy, step.0, script);
        EndsLater(cfg.limits, s, step.0, step.1, script, Ran(cfg, policy, step.0, script));
      }
    }
  }

  lemma NoEffectsLeft(cfg: Config, policy: Retry.RetryPolicy, s: RunState, script: Script)
    ensures Ran(cfg, policy, s, script).effects == [] ==> Ran(cfg, policy, s, script).state == Stopped(s, MaxIterations)
  {
    hide Iterated, ModelAnswers, Over;
  }

  // ---- the policy, skills and plans ----

  /** A tool runs only if the policy lets it, and waits only if the policy asks for approval and somebody can give it; both as the model asked. */
  predicate Obeys(cfg: Config, turn: Turn, effect: Effect)
  {
    && (Admits(effect) ==> turn.action == UseTool(effect.request.tool, effect.request.arguments))
    && (effect.Executed? ==> turn.policy.MayRun?)
    && (effect.Paused? ==> cfg.hasApprovalStore && turn.policy == NeedsApproval(true) && effect.approvalId == turn.approvalId && effect.at == turn.at)
    && (effect.Unavailable? ==> turn.policy.NeedsApproval? && !(cfg.hasApprovalStore && turn.policy.knownCapability))
  }

  lemma OneObeys(cfg: Config, policy: Retry.RetryPolicy, s: RunState, turn: Turn)
    ensures Obeys(cfg, turn, Iterated(cfg, policy, s, turn).1)
  {
    hide FinalCaveats, Evaluation, Planning.Reconcile, DelegationSource, Trailing, Retry.Succeeds;
  }

  ghost predicate AllObey(cfg: Config, script: Script, from: nat, effects: seq<Effect>)
  {
    forall i: nat :: i < |effects| ==> Obeys(cfg, script(from + i), effects[i])
  }

  /** Over a whole run no tool runs against the policy's word, and none other than the model asked for. */
  lemma {:induction false} RunObeysPolicy(cfg: Config, policy: Retry.RetryPolicy, s: RunState, script: Script)
    requires s.status == Running
    ensures AllObey(cfg, script, s.iterations, Ran(cfg, policy, s, script).effects)
    decreases cfg.limits.maxIterations - s.iterations
  {
    hide Iterated, Obeys, Over, AllObey;
    if s.iterations >= cfg.limits.maxIterations {
      assert Ran(cfg, policy, s, script) == Outcome(Stopped(s, MaxIterations), []);
      NobodyObeys(cfg, script, s.iterations);
    } else {
      hide Ran;
      RanUnfolds(cfg, policy, s, script);
      OneObeys(cfg, policy, s, script(s.iterations));
      var step := Iterated(cfg, policy, s, script(s.iterations));
      if step.1.Crashed? || Over(step.0) {
        NobodyObeys(cfg, script, s.iterations + 1);
        ObeyJoin(cfg, script, s.iterations, step.1, []);
        assert [step.1] + [] == [step.1];
      } else {
        StillRunning(cfg, policy, s, script(s.iterations));
        RunObeysPolicy(cfg, policy, step.0, script);
        ObeyJoin(cfg, script, s.iterations, step.1, Ran(cfg, policy, step.0, script).effects);
      }
    }
  }

  lemma NobodyObeys(cfg: Config, script: Script, from: nat)
    ensures AllObey(cfg, script, from, [])
  {
  }

  lemma ObeyJoin(cfg: Config, script: Script, from: nat, effect: Effect, rest: seq<Effect>)
    requires Obeys(cfg, script(from), effect) && AllObey(cfg, script, from + 1, rest)
    ensures AllObey(cfg, script, from, [effect] + rest)
  {
    hide Obeys;
    forall i: nat | i < |[effect] + rest|
      ensures Obeys(cfg, script(from + i), ([effect] + rest)[i])
    {
      if i > 0 {
        var j: nat := i - 1;
        assert Obeys(cfg, script(from + 1 + j), rest[j]);
        assert from + 1 + j == from + i;
      }
    }
  }

  /** What the run has learned: the plan is the last one an update brought, reconciled with what was observed before it; a skill once loaded keeps its text. */
  lemma OneLearns(cfg: Config, policy: Retry.RetryPolicy, s: RunState, turn: Turn)
    ensures var (s', effect) := Iterated(cfg, policy, s, turn);
      && s'.plan == (if effect.Executed? && effect.request.tool == UPDATE_PLAN && turn.result.success
                        && turn.result.output.Dict? && turn.result.output.plan.Some?
                     then Some(Planning.Reconcile(turn.result.output.plan.value, s.observations)) else s.plan)
      && (effect.SkillReady? <==>
          ModelAnswers(policy, turn) && turn.action.LoadSkill? && (turn.action.skill in s.loadedSkills || turn.skill.Loaded?))
      && s'.loadedSkills == (if effect.SkillReady? && turn.action.skill !in s.loadedSkills
                             then s.loadedSkills[turn.action.skill := turn.skill.text] else s.loadedSkills)
  {
    hide Planning.Reconcile;
    hide FinalCaveats, Evaluation, DelegationSource, Trailing, Retry.Succeeds;
    match turn.action
    case UseTool(_, _) =>
    case LoadSkill(_) =>
    case Finish(_, _) =>
    case _ =>
  }

  /** A finish is sent back exactly when the plan has something open and there are iterations, calls and redirects left to see to it. */
  lemma FinishSentBackIff(cfg: Config, policy: Retry.RetryPolicy, s: RunState, turn: Turn)
    requires s.status == Running && s.stopReason.None? && !s.completed && turn.action.Finish? && ModelAnswers(policy, turn)
    ensures !Iterated(cfg, policy, s, turn).0.completed <==>
      && s.plan.Some? && !Planning.NoGaps(s.plan.value, s.observations)
      && cfg.limits.maxIterations - (s.iterations + 1) >= 2 && s.toolCalls < cfg.limits.maxToolCalls && s.redirects < cfg.limits.maxRedirects
  {
    if s.plan.Some? {
      Planning.FinishWithoutGapsIff(
        s.plan.value, s.observations, cfg.limits.maxIterations - (s.iterations + 1), cfg.limits.maxToolCalls - s.toolCalls, s.redirects,
        cfg.limits.maxRedirects);
    }
    hide Planning.NoGaps, Planning.Missing;
    hide FinalCaveats, Retry.Succeeds;
  }
}
