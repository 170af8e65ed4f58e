/** The state of one agent run and the limits it runs under (backend/app/runtime/state.py, backend/app/core/limits.py). */
module AgentStates {
  import opened Common
  import Planning

  /** A tool request; the runtime's fingerprint of it tells any two different requests apart. */
  datatype Request = Request(tool: string, arguments: string)

  datatype Status = Running | WaitingForApproval | Completed | Failed
  datatype StopReason = ByCompletion | MaxIterations | MaxToolCalls | TooManyErrors

  datatype RunState = RunState(
    runId: string,
    observations: seq<Planning.Observation>,
    plan: Option<Planning.Plan>,
    redirects: nat,
    loadedSkills: map<string, string>,
    iterations: nat,
    toolCalls: nat,
    errors: nat,
    fingerprints: seq<Request>,
    completed: bool,
    status: Status,
    finalAnswer: Option<string>,
    caveats: seq<string>,
    stopReason: Option<StopReason>)

  function NewRun(runId: string): RunState
  {
    RunState(runId, [], None, 0, map[], 0, 0, 0, [], false, Running, None, [], None)
  }

  datatype Limits = Limits(maxIterations: nat, maxToolCalls: nat, maxErrors: nat, maxDuplicates: nat, maxRedirects: nat)

  /** What the limits' constructor demands. */
  predicate ValidLimits(l: Limits)
  {
    l.maxIterations >= 1 && l.maxToolCalls >= 1 && l.maxErrors >= 1 && l.maxDuplicates >= 1
  }

  /** The run's own, mutable copy. */
  class AgentState {
    const runId: string
    var observations: seq<Planning.Observation>
    var plan: Option<Planning.Plan>
    var redirects: nat
    var loadedSkills: map<string, string>
    var iterations: nat
    var toolCalls: nat
    var errors: nat
    var fingerprints: seq<Request>
    var completed: bool
    var status: Status
    var finalAnswer: Option<string>
    var caveats: seq<string>
    var stopReason: Option<StopReason>

    function View(): RunState
      reads this
    {
      RunState(runId, observations, plan, redirects, loadedSkills, iterations, toolCalls, errors,
               fingerprints, completed, status, finalAnswer, caveats, stopReason)
    }

    constructor FromView(s: RunState)
      ensures View() == s
    {
      runId, observations, plan, redirects := s.runId, s.observations, s.plan, s.redirects;
      loadedSkills, iterations, toolCalls, errors := s.loadedSkills, s.iterations, s.toolCalls, s.errors;
      fingerprints, completed, status := s.fingerprints, s.completed, s.status;
      finalAnswer, caveats, stopReason := s.finalAnswer, s.caveats, s.stopReason;
    }
  }
}
