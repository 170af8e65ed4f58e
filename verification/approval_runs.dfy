/** A concrete run of the approval protocol in which the error limit is passed and the run goes on. */
module ApprovalRuns {
  import opened Common
  import opened AgentStates
  import opened AgentRun
  import opened AgentRunners
  import opened ApprovalProtocol
  import opened ApprovalRefinement
  import Approvals
  import Planning
  import Retry

  const QUERY: Request := Request("query_database", "{}")

  /** The model answers at once and asks for a tool that needs approval. */
  function AskingTurn(): Turn
  {
    Turn(k => None, UseTool(QUERY.tool, QUERY.arguments), NeedsApproval(true), ToolResult(true, Planning.NotDict),
         UnknownSkill, Refused(""), 0, 0)
  }

  /** A run with a limit of one error, and a store that gives approvers some time. */
  predicate OneErrorAllowed(x: Setup)
  {
    ValidLimits(x.cfg.limits) && x.cfg.limits.maxErrors == 1 && x.cfg.hasApprovalStore && (x.ttl.None? || x.ttl.value > 0)
  }

  function RejectedRun(): seq<Step>
  {
    [Start(0, "run"), Iterate(0, AskingTurn()), Step.Record(0, 0), Resolve(0, Approvals.Rejected, 0), ClaimRejected(1, 0, 0)]
  }

  lemma Extend(x: Setup, w: World, steps: seq<Step>, step: Step)
    requires Legal(x, w, steps) && Enabled(x, After(x, w, steps), step)
    ensures Legal(x, w, steps + [step]) && After(x, w, steps + [step]) == Next(x, After(x, w, steps), step)
  {
    hide Enabled, Next, Legal, After;
    OneStep(x, After(x, w, steps), step);
    Join(x, w, steps, [step]);
  }

  /** What asking leaves: one call counted, and the run waiting. */
  function Asked(): RunState
  {
    NewRun("run").(iterations := 1, toolCalls := 1, fingerprints := [QUERY], status := WaitingForApproval)
  }

  lemma AskingPauses(x: Setup)
    requires OneErrorAllowed(x)
    ensures Iterated(x.cfg, x.policy, NewRun("run"), AskingTurn()) == (Asked(), Paused(QUERY, 0, 0, Running))
  {
    assert ModelAnswers(x.policy, AskingTurn());
    var none: seq<Request> := [];
    assert none + [QUERY] == [QUERY];
  }

  /**
   A limit of one error is reached by a rejection and does not stop the run: the caller that resumes
   the rejected request carries on a running run whose error count is at the limit.
   */
  lemma RejectionOutrunsLimit(x: Setup)
    requires OneErrorAllowed(x)
    ensures Legal(x, NOTHING, RejectedRun())
    ensures var w := After(x, NOTHING, RejectedRun());
      && 1 in w.going && !w.going[1].owes && w.going[1].state.runId == "run"
      && w.going[1].state.status == Running && !Over(w.going[1].state)
      && w.going[1].state.errors == x.cfg.limits.maxErrors
  {
    AskingPauses(x);
    hide Iterated, ModelAnswers;
    var a, b, c := Start(0, "run"), Iterate(0, AskingTurn()), Step.Record(0, 0);
    var d, e := Resolve(0, Approvals.Rejected, 0), ClaimRejected(1, 0, 0);
    OneStep(x, NOTHING, a);
    Extend(x, NOTHING, [a], b);
    Extend(x, NOTHING, [a] + [b], c);
    Extend(x, NOTHING, [a] + [b] + [c], d);
    Extend(x, NOTHING, [a] + [b] + [c] + [d], e);
    assert RejectedRun() == [a] + [b] + [c] + [d] + [e];
  }

  /** And only so: a run that goes on at or past the limit has had a rejection resumed for every error from the limit on. */
  lemma OutrunOnlyByRejections(x: Setup, steps: seq<Step>, t: Token)
    requires ValidLimits(x.cfg.limits) && Legal(x, NOTHING, steps) && Holds(After(x, NOTHING, steps), t)
    requires StakeOf(After(x, NOTHING, steps), t).state.errors >= x.cfg.limits.maxErrors
    ensures var w := After(x, NOTHING, steps);
      var s := StakeOf(w, t).state;
      Rejections(w.log, s.runId) > s.errors - x.cfg.limits.maxErrors
  {
    ToolsWithinBudget(x, steps, StakeOf(After(x, NOTHING, steps), t).state.runId);
    hide Legal, After, Holds, StakeOf, Done, Rejections;
  }
}
