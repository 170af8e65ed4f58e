/**
 One agent run as a state machine (backend/app/runtime/runner.py and backend/app/runtime/control.py):
 what each iteration does to the run, and what every run keeps. The model's choice of action, the
 policy's decision, tool results, skill texts and delegation outcomes are inputs.
 */
module AgentRun {
  import opened Common
  import opened AgentStates
  import Caveats
  import Planning
  import Retry

  datatype Config = Config(limits: Limits, hasApprovalStore: bool, text: Caveats.TextRules)

  datatype Action =
    | UseTool(tool: string, arguments: string)
    | LoadSkill(skill: string)
    | Delegate
    | DelegateParallel
    | Finish(answer: string, stated: seq<string>)

  /** The security policy's word on a tool request, before it runs. */
  datatype Policy = MayRun | NeedsApproval(knownCapability: bool)

  datatype ToolResult = ToolResult(success: bool, output: Planning.ToolOutput)

  datatype SkillLoad = Loaded(text: string) | UnknownSkill | LoadFailed

  /** A delegation is refused with an error, or one child or one batch runs. */
  datatype Delegation = Refused(target: string) | ChildRan(success: bool) | BatchRan(success: bool)

  /** What the world answers in one iteration: the model's attempts and action, and the rest. */
  datatype Turn = Turn(
    attempts: Retry.Attempts, action: Action, policy: Policy, result: ToolResult, skill: SkillLoad, delegation: Delegation,
    approvalId: nat, at: int)

  /** What an iteration does beyond the run's own state. */
  datatype Effect =
    | Quiet
    | Executed(request: Request)
    | Paused(request: Request, approvalId: nat, at: int, was: Status)
    | Unavailable(request: Request)
    | SkillReady
    | Crashed

  // ---- one action ----

  function Observed(s: RunState, source: string, success: bool, output: Planning.ToolOutput): RunState
  {
    s.(observations := s.observations + [Planning.Observation(source, success, output, s.iterations, |s.observations| + 1)])
  }

  function StopAnswer(reason: StopReason): string
  {
    match reason
    case MaxIterations => "Agent stopped after reaching the maximum iteration limit."
    case MaxToolCalls => "Agent stopped after reaching the maximum tool call limit."
    case TooManyErrors => "Agent stopped after reaching the maximum recoverable error limit."
    case ByCompletion => ""
  }

  function Stopped(s: RunState, reason: StopReason): RunState
  {
    s.(completed := false, status := Failed, stopReason := Some(reason), finalAnswer := Some(StopAnswer(reason)))
  }

  function WithError(l: Limits, s: RunState): RunState
  {
    var counted := s.(errors := s.errors + 1);
    if counted.errors >= l.maxErrors then Stopped(counted, TooManyErrors) else counted
  }

  /** How many entries at the end of the list are this request. */
  function Trailing(fingerprints: seq<Request>, request: Request): nat
  {
    if fingerprints == [] || fingerprints[|fingerprints| - 1] != request then 0
    else 1 + Trailing(fingerprints[..|fingerprints| - 1], request)
  }

  const UPDATE_PLAN := "update_investigation_plan"

  /** The proposed plan is reconciled with what the run had observed before this result. */
  function Planned(s: RunState, tool: string, result: ToolResult): RunState
  {
    if result.success && tool == UPDATE_PLAN && result.output.Dict? && result.output.plan.Some?
    then s.(plan := Some(Planning.Reconcile(result.output.plan.value, s.observations)))
    else s
  }

  function ToolRan(l: Limits, s: RunState, tool: string, result: ToolResult): RunState
  {
    var seen := Observed(Planned(s, tool, result), tool, result.success, result.output);
    if result.success then seen else WithError(l, seen)
  }

  function Admitted(s: RunState, request: Request): RunState
  {
    s.(fingerprints := s.fingerprints + [request], toolCalls := s.toolCalls + 1)
  }

  function ToolUsed(cfg: Config, s: RunState, request: Request, turn: Turn): (RunState, Effect)
  {
    if s.toolCalls >= cfg.limits.maxToolCalls then (Stopped(s, MaxToolCalls), Quiet)
    else if Trailing(s.fingerprints, request) >= cfg.limits.maxDuplicates then
      (Observed(s, request.tool, false, Planning.NotDict), Quiet)
    else
      var admitted := Admitted(s, request);
      if turn.policy.MayRun? then (ToolRan(cfg.limits, admitted, request.tool, turn.result), Executed(request))
      else if !cfg.hasApprovalStore || !turn.policy.knownCapability then
        (Observed(admitted, request.tool, false, Planning.NotDict), Unavailable(request))
      else (admitted.(status := WaitingForApproval), Paused(request, turn.approvalId, turn.at, s.status))
  }

  function SkillLoaded(cfg: Config, s: RunState, skill: string, load: SkillLoad): (RunState, Effect)
  {
    if skill in s.loadedSkills then (s.(fingerprints := []), SkillReady)
    else
      match load
      case Loaded(text) => (s.(loadedSkills := s.loadedSkills[skill := text], fingerprints := []), SkillReady)
      case UnknownSkill => (WithError(cfg.limits, Observed(s, "skill:" + skill, false, Planning.NotDict)), Quiet)
      case LoadFailed => (s, Crashed)
  }

  function DelegationSource(d: Delegation): string
  {
    match d
    case Refused(target) => "delegation:" + if target == "" then "unknown" else target
    case ChildRan(_) => "subagent"
    case BatchRan(_) => "parallel_subagents"
  }

  function Delegated(l: Limits, s: RunState, d: Delegation): RunState
  {
    var succeeded := !d.Refused? && d.success;
    var seen := Observed(s, DelegationSource(d), succeeded, Planning.NotDict);
    if succeeded then seen else WithError(l, seen)
  }

  function Evaluation(l: Limits, s: RunState): Planning.FinishEvaluation
  {
    Planning.EvaluateFinish(
      s.plan, s.observations, l.maxIterations - s.iterations, l.maxToolCalls - s.toolCalls, s.redirects, l.maxRedirects)
  }

  function GapLines(missing: seq<string>): (lines: seq<string>)
    ensures |lines| == |missing|
  {
    seq(|missing|, i requires 0 <= i < |missing| => "Incomplete: " + missing[i])
  }

  function FinalCaveats(text: Caveats.TextRules, stated: seq<string>, missing: seq<string>): seq<string>
  {
    if missing == [] then stated else Caveats.Normalize(text, Caveats.AsValues(stated + GapLines(missing)))
  }

  function FinishTried(cfg: Config, s: RunState, answer: string, stated: seq<string>): RunState
  {
    var evaluation := Evaluation(cfg.limits, s);
    if !evaluation.accept then
      Observed(s.(redirects := s.redirects + 1), "investigation_plan", false, Planning.NotDict)
    else
      s.(finalAnswer := Some(answer), caveats := FinalCaveats(cfg.text, stated, evaluation.missing),
         completed := true, status := Completed, stopReason := Some(ByCompletion))
  }

  function Applied(cfg: Config, s: RunState, turn: Turn): (RunState, Effect)
  {
    match turn.action
    case UseTool(tool, arguments) => ToolUsed(cfg, s, Request(tool, arguments), turn)
    case LoadSkill(skill) => SkillLoaded(cfg, s, skill, turn.skill)
    case Delegate => (Delegated(cfg.limits, s, turn.delegation), Quiet)
    case DelegateParallel => (Delegated(cfg.limits, s, turn.delegation), Quiet)
    case Finish(answer, stated) => (FinishTried(cfg, s, answer, stated), Quiet)
  }

  // ---- the loop ----

  predicate ModelAnswers(policy: Retry.RetryPolicy, turn: Turn)
  {
    Retry.Succeeds(policy, "llm", turn.attempts)
  }

  /** One pass of the loop body: a model that cannot be reached ends the run before the iteration counts. */
  function Iterated(cfg: Config, policy: Retry.RetryPolicy, s: RunState, turn: Turn): (RunState, Effect)
  {
    if !ModelAnswers(policy, turn) then (s, Crashed) else Applied(cfg, s.(iterations := s.iterations + 1), turn)
  }

  predicate Over(s: RunState)
  {
    s.status == WaitingForApproval || s.completed || s.stopReason.Some?
  }

  datatype Outcome = Outcome(state: RunState, effects: seq<Effect>)

  /** What the world answers in each iteration, by how many came before it in the run. */
  type Script = nat -> Turn

  function Ran(cfg: Config, policy: Retry.RetryPolicy, s: RunState, script: Script): Outcome
    decreases cfg.limits.maxIterations - s.iterations
  {
    if s.iterations >= cfg.limits.maxIterations then Outcome(Stopped(s, MaxIterations), [])
    else
      var (s', effect) := Iterated(cfg, policy, s, script(s.iterations));
      CountsOne(cfg, policy, s, script(s.iterations));
      if effect.Crashed? || Over(s') then Outcome(s', [effect])
      else
        var rest := Ran(cfg, policy, s', script);
        Outcome(rest.state, [effect] + rest.effects)
  }

  lemma CountsOne(cfg: Config, policy: Retry.RetryPolicy, s: RunState, turn: Turn)
    ensures var (s', effect) := Iterated(cfg, policy, s, turn);
      s'.runId == s.runId && s'.iterations == s.iterations + if ModelAnswers(policy, turn) then 1 else 0
    ensures !Iterated(cfg, policy, s, turn).1.Crashed? ==> ModelAnswers(policy, turn)
  {
    hide Trailing, Evaluation, Retry.Succeeds;
  }

  // ---- what every run keeps ----

  /**
   The budgets, and that a run is either going, waiting, or over for one reason. Rejections are
   the human ones resumed so far: each adds an error that nothing checks at once.
   */
  predicate WithinBudget(l: Limits, s: RunState, rejections: nat)
  {
    && s.toolCalls <= l.maxToolCalls && s.toolCalls <= s.iterations <= l.maxIterations
    && s.redirects <= l.maxRedirects
    && s.errors <= l.maxErrors + rejections
    && (s.status in {Running, WaitingForApproval} ==> s.errors < l.maxErrors + rejections && !s.completed && s.stopReason.None?)
    && (s.status == Completed ==> s.completed && s.stopReason == Some(ByCompletion))
    && (s.status == Failed ==> !s.completed && s.stopReason.Some? && s.stopReason != Some(ByCompletion))
  }

  /** No request stands more than this many times in a row in the list. */
  ghost predicate BlocksWithin(fingerprints: seq<Request>, most: nat)
  {
    forall i :: 0 <= i && i + most < |fingerprints| ==> Breaks(fingerprints, i, most)
  }

  ghost predicate Breaks(fingerprints: seq<Request>, i: nat, most: nat)
    requires i + most < |fingerprints|
  {
    exists j :: i < j <= i + most && fingerprints[j] != fingerprints[i]
  }

  ghost predicate Evidenced(s: RunState)
  {
    s.plan.Some? ==> Planning.Supported(s.plan.value, s.observations)
  }

  /** Observations are numbered from one in order, in iterations that never go back. */
  predicate Numbered(s: RunState)
  {
    && (forall i :: 0 <= i < |s.observations| ==> s.observations[i].sequence == i + 1 && s.observations[i].iteration <= s.iterations)
    && (forall i, j :: 0 <= i <= j < |s.observations| ==> s.observations[i].iteration <= s.observations[j].iteration)
  }

  ghost predicate Kept(l: Limits, s: RunState, rejections: nat)
  {
    WithinBudget(l, s, rejections) && BlocksWithin(s.fingerprints, l.maxDuplicates) && Evidenced(s) && Numbered(s)
  }

  lemma NewRunKept(l: Limits, runId: string)
    requires ValidLimits(l)
    ensures Kept(l, NewRun(runId), 0)
  {
  }

  lemma {:induction false} TrailingMeaning(fingerprints: seq<Request>, request: Request)
    ensures var n := Trailing(fingerprints, request);
      && n <= |fingerprints|
      && (forall k :: |fingerprints| - n <= k < |fingerprints| ==> fingerprints[k] == request)
      && (n < |fingerprints| ==> fingerprints[|fingerprints| - n - 1] != request)
  {
    if fingerprints != [] && fingerprints[|fingerprints| - 1] == request {
      TrailingMeaning(fingerprints[..|fingerprints| - 1], request);
    }
  }

  lemma AdmitKeepsBlocks(fingerprints: seq<Request>, request: Request, most: nat)
    requires BlocksWithin(fingerprints, most) && Trailing(fingerprints, request) < most
    ensures BlocksWithin(fingerprints + [request], most)
  {
    var longer, n := fingerprints + [request], Trailing(fingerprints, request);
    TrailingMeaning(fingerprints, request);
    forall i | 0 <= i && i + most < |longer|
      ensures Breaks(longer, i, most)
    {
      if i + most < |fingerprints| {
        assert Breaks(fingerprints, i, most);
        var j :| i < j <= i + most && fingerprints[j] != fingerprints[i];
        assert longer[j] != longer[i];
      } else {
        var k := |fingerprints| - n - 1;
        assert i <= k;
        if longer[i] == request {
          assert longer[k] != longer[i];
        } else {
          assert longer[i + most] != longer[i];
        }
      }
    }
  }

  lemma ObservedKeeps(s: RunState, source: string, success: bool, output: Planning.ToolOutput)
    requires Evidenced(s) && Numbered(s)
    ensures Evidenced(Observed(s, source, success, output)) && Numbered(Observed(s, source, success, output))
  {
    var s' := Observed(s, source, success, output);
    if s.plan.Some? {
      Planning.SupportedMonotone(s.plan.value, s.observations, [s'.observations[|s.observations|]]);
    }
    hide Planning.Supported;
  }

  lemma PlannedKeeps(s: RunState, tool: string, result: ToolResult)
    requires Evidenced(s) && Numbered(s)
    ensures Evidenced(Planned(s, tool, result)) && Numbered(Planned(s, tool, result))
  {
    hide Planning.Supported;
    hide Planning.Reconcile;
    if Planned(s, tool, result) != s {
      Planning.ReconcileSupported(result.output.plan.value, s.observations);
    }
  }

  lemma ErrorKeeps(l: Limits, s: RunState)
    requires Evidenced(s) && Numbered(s)
    ensures Evidenced(WithError(l, s)) && Numbered(WithError(l, s))
  {
    hide Planning.Supported;
  }

  lemma ToolKeepsHistory(l: Limits, s: RunState, tool: string, result: ToolResult)
    requires Evidenced(s) && Numbered(s)
    ensures Evidenced(ToolRan(l, s, tool, result)) && Numbered(ToolRan(l, s, tool, result))
  {
    PlannedKeeps(s, tool, result);
    ObservedKeeps(Planned(s, tool, result), tool, result.success, result.output);
    ErrorKeeps(l, Observed(Planned(s, tool, result), tool, result.success, result.output));
    hide Evidenced, Numbered, Planned, Observed;
  }

  /** The plan stays backed by evidence and observations stay in order, whatever the action. */
  lemma AppliedKeepsHistory(cfg: Config, s: RunState, turn: Turn)
    requires Evidenced(s) && Numbered(s)
    ensures Evidenced(Applied(cfg, s, turn).0) && Numbered(Applied(cfg, s, turn).0)
  {
    hide Planning.Supported;
    hide Trailing, Evaluation, WithError, Observed, ToolRan, FinalCaveats;
    match turn.action
    case UseTool(tool, arguments) =>
      var admitted := Admitted(s, Request(tool, arguments));
      assert Evidenced(admitted) && Numbered(admitted);
      ToolKeepsHistory(cfg.limits, admitted, tool, turn.result);
      ObservedKeeps(admitted, tool, false, Planning.NotDict);
      ObservedKeeps(s, tool, false, Planning.NotDict);
    case LoadSkill(skill) =>
      var unknown := Observed(s, "skill:" + skill, false, Planning.NotDict);
      ObservedKeeps(s, "skill:" + skill, false, Planning.NotDict);
      ErrorKeeps(cfg.limits, unknown);
    case Finish(_, _) =>
      ObservedKeeps(s.(redirects := s.redirects + 1), "investigation_plan", false, Planning.NotDict);
    case _ =>
      var d := turn.delegation;
      var succeeded := !d.Refused? && d.success;
      ObservedKeeps(s, DelegationSource(d), succeeded, Planning.NotDict);
      ErrorKeeps(cfg.limits, Observed(s, DelegationSource(d), succeeded, Planning.NotDict));
  }

  lemma AppliedKeepsBudget(cfg: Config, s: RunState, turn: Turn, rejections: nat)
    requires WithinBudget(cfg.limits, s, rejections) && s.status == Running && s.toolCalls < s.iterations
    ensures WithinBudget(cfg.limits, Applied(cfg, s, turn).0, rejections)
  {
    hide Trailing, FinalCaveats, Planning.Missing, Planning.Reconcile, DelegationSource;
    match turn.action
    case UseTool(_, _) =>
    case LoadSkill(_) =>
    case Finish(_, _) =>
    case _ =>
  }

  lemma AppliedKeepsBlocks(cfg: Config, s: RunState, turn: Turn)
    requires BlocksWithin(s.fingerprints, cfg.limits.maxDuplicates)
    ensures BlocksWithin(Applied(cfg, s, turn).0.fingerprints, cfg.limits.maxDuplicates)
  {
    hide FinalCaveats, Evaluation, Planning.Reconcile, DelegationSource, Trailing;
    match turn.action
    case UseTool(tool, arguments) =>
      if Trailing(s.fingerprints, Request(tool, arguments)) < cfg.limits.maxDuplicates {
        AdmitKeepsBlocks(s.fingerprints, Request(tool, arguments), cfg.limits.maxDuplicates);
      }
      hide BlocksWithin;
    case _ =>
  }

  lemma CountedKeeps(l: Limits, s: RunState, rejections: nat)
    requires Kept(l, s, rejections) && s.status == Running && s.iterations < l.maxIterations
    ensures var counted := s.(iterations := s.iterations + 1);
      Kept(l, counted, rejections) && counted.toolCalls < counted.iterations
  {
    hide Planning.Supported;
    hide BlocksWithin;
  }

  /** Every iteration keeps the budgets, the duplicate bound, the plan's evidence and the numbering. */
  lemma IterationKeeps(cfg: Config, policy: Retry.RetryPolicy, s: RunState, turn: Turn, rejections: nat)
    requires Kept(cfg.limits, s, rejections) && s.status == Running && s.iterations < cfg.limits.maxIterations
    ensures Kept(cfg.limits, Iterated(cfg, policy, s, turn).0, rejections)
  {
    hide Applied, Evidenced, Numbered, BlocksWithin, WithinBudget, ModelAnswers;
    var counted := s.(iterations := s.iterations + 1);
    CountedKeeps(cfg.limits, s, rejections);
    AppliedKeepsHistory(cfg, counted, turn);
    AppliedKeepsBudget(cfg, counted, turn, rejections);
    AppliedKeepsBlocks(cfg, counted, turn);
  }

  lemma StoppedKeeps(l: Limits, s: RunState, rejections: nat)
    requires Kept(l, s, rejections)
    ensures Kept(l, Stopped(s, MaxIterations), rejections)
  {
    hide Planning.Supported;
    hide BlocksWithin;
  }

  lemma StillRunning(cfg: Config, policy: Retry.RetryPolicy, s: RunState, turn: Turn)
    requires s.status == Running && !Over(Iterated(cfg, policy, s, turn).0)
    ensures Iterated(cfg, policy, s, turn).0.status == Running
  {
    hide FinalCaveats, Evaluation, Planning.Reconcile, DelegationSource, Trailing, Retry.Succeeds;
  }

  /** Running on from a kept state ends in one, and never by waiting or stopping short of a reason. */
  lemma {:induction false} RunKeeps(cfg: Config, policy: Retry.RetryPolicy, s: RunState, script: Script, rejections: nat)
    requires Kept(cfg.limits, s, rejections) && s.status == Running
    ensures var out := Ran(cfg, policy, s, script);
      && Kept(cfg.limits, out.state, rejections)
      && (Over(out.state) || (out.effects != [] && out.effects[|out.effects| - 1].Crashed?))
    decreases cfg.limits.maxIterations - s.iterations
  {
    hide Iterated, Kept, ModelAnswers;
    if s.iterations < cfg.limits.maxIterations {
      var turn := script(s.iterations);
      IterationKeeps(cfg, policy, s, turn, rejections);
      CountsOne(cfg, policy, s, turn);
      var (s', effect) := Iterated(cfg, policy, s, turn);
      if !effect.Crashed? && !Over(s') {
        StillRunning(cfg, policy, s, turn);
        RunKeeps(cfg, policy, s', script, rejections);
      }
    } else {
      StoppedKeeps(cfg.limits, s, rejections);
    }
  }

  // ---- what the effects of a run say ----

  /** The request an effect admitted past the budget and the duplicate check. */
  predicate Admits(effect: Effect)
  {
    effect.Executed? || effect.Paused? || effect.Unavailable?
  }

  function CountAdmitted(effects: seq<Effect>): nat
  {
    if effects == [] then 0 else (if Admits(effects[0]) then 1 else 0) + CountAdmitted(effects[1..])
  }

  function CountExecuted(effects: seq<Effect>): (n: nat)
    ensures n <= CountAdmitted(effects)
  {
    if effects == [] then 0 else (if effects[0].Executed? then 1 else 0) + CountExecuted(effects[1..])
  }

  /** The requests admitted since the last time a skill was made ready, after those in hand. */
  function AdmittedSince(inHand: seq<Request>, effects: seq<Effect>): seq<Request>
    decreases |effects|
  {
    if effects == [] then inHand
    else if effects[0].SkillReady? then AdmittedSince([], effects[1..])
    else if Admits(effects[0]) then AdmittedSince(inHand + [effects[0].request], effects[1..])
    else AdmittedSince(inHand, effects[1..])
  }

  lemma OneAccounts(cfg: Config, policy: Retry.RetryPolicy, s: RunState, turn: Turn)
    ensures var (s', effect) := Iterated(cfg, policy, s, turn);
      && s'.toolCalls == s.toolCalls + (if Admits(effect) then 1 else 0)
      && s'.fingerprints == AdmittedSince(s.fingerprints, [effect])
      && (s.status != WaitingForApproval ==> (effect.Paused? <==> s'.status == WaitingForApproval))
  {
    hide FinalCaveats, Evaluation, Planning.Reconcile, DelegationSource, Trailing, Retry.Succeeds;
    var (s', effect) := Iterated(cfg, policy, s, turn);
    assert [effect][1..] == [];
    match turn.action
    case UseTool(_, _) =>
    case LoadSkill(_) =>
    case _ =>
  }

  lemma AdmittedSinceOne(inHand: seq<Request>, effect: Effect, rest: seq<Effect>)
    ensures AdmittedSince(inHand, [effect] + rest) == AdmittedSince(AdmittedSince(inHand, [effect]), rest)
  {
    assert ([effect] + rest)[1..] == rest && [effect][1..] == [];
  }

  /**
   The counter and the fingerprint list say exactly what the run did: every admitted request was
   counted once, the list holds those admitted since a skill was last made ready, and a run
   waits for approval exactly when its last effect was to pause.
   */
  lemma {:induction false} RunAccounts(cfg: Config, policy: Retry.RetryPolicy, s: RunState, script: Script)
    requires s.status == Running
    ensures var out := Ran(cfg, policy, s, script);
      && out.state.toolCalls == s.toolCalls + CountAdmitted(out.effects)
      && out.state.fingerprints == AdmittedSince(s.fingerprints, out.effects)
      && (forall i :: 0 <= i < |out.effects| && out.effects[i].Paused? ==> i == |out.effects| - 1)
      && (out.state.status == WaitingForApproval <==> out.effects != [] && out.effects[|out.effects| - 1].Paused?)
    decreases cfg.limits.maxIterations - s.iterations
  {
    if s.iterations < cfg.limits.maxIterations {
      var turn := script(s.iterations);
      CountsOne(cfg, policy, s, turn);
      OneAccounts(cfg, policy, s, turn);
      hide Iterated, ModelAnswers;
      var (s', effect) := Iterated(cfg, policy, s, turn);
      if effect.Crashed? || Over(s') {
        assert CountAdmitted([effect]) == (if Admits(effect) then 1 else 0) by { assert [effect][1..] == []; }
        EndAccounts(cfg, policy, s, turn);
      } else {
        StillRunning(cfg, policy, s, turn);
        RunAccounts(cfg, policy, s', script);
        var rest := Ran(cfg, policy, s', script);
        AdmittedSinceOne(s.fingerprints, effect, rest.effects);
        assert ([effect] + rest.effects)[1..] == rest.effects;
      }
    }
  }

  lemma EndAccounts(cfg: Config, policy: Retry.RetryPolicy, s: RunState, turn: Turn)
    requires s.status == Running && s.iterations < cfg.limits.maxIterations
    ensures var (s', effect) := Iterated(cfg, policy, s, turn);
      s'.status == WaitingForApproval <==> effect.Paused?
  {
    OneAccounts(cfg, policy, s, turn);
  }

  /** A request refused as a repeat costs an iteration and an observation and nothing else. */
  lemma RepeatBlockedIff(cfg: Config, s: RunState, turn: Turn)
    requires turn.action.UseTool? && s.toolCalls < cfg.limits.maxToolCalls && s.status == Running
    ensures var request := Request(turn.action.tool, turn.action.arguments);
      var (s', effect) := Applied(cfg, s, turn);
      !Admits(effect) <==> Trailing(s.fingerprints, request) >= cfg.limits.maxDuplicates
    ensures !Admits(Applied(cfg, s, turn).1) ==>
      Applied(cfg, s, turn).0 == s.(observations := Applied(cfg, s, turn).0.observations)
  {
    hide Trailing;
  }
}
