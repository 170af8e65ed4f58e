/**
 Any number of runs, resumers, approvers and crashes over one approval store
 (backend/app/runtime/runner.py:532-628, backend/app/security/approvals.py:128-200). A step is one
 store call, one iteration, one approved execution, or a process dying; steps of different callers
 interleave freely.
 */
module ApprovalProtocol {
  import opened Common
  import opened AgentStates
  import opened AgentRun
  import opened AgentRunners
  import Approvals
  import Planning
  import Retry

  type Id = Approvals.Id
  type Caller = nat

  /** A caller carrying a run on; it owes the approved action until it has run it. */
  datatype Going = Going(state: RunState, origin: Option<Id>, owes: bool)

  /** A caller whose run is over or waiting, and that has yet to record so. */
  datatype Finishing = Finishing(state: RunState, origin: Option<Id>)

  datatype Event =
    | ToolRan(runId: string, request: Request)
    | ApprovedRan(runId: string, id: Id, request: Request)
    | RejectionResumed(runId: string, id: Id)

  datatype World = World(
    runs: set<string>, store: Approvals.Store, going: map<Caller, Going>, finishing: map<Caller, Finishing>, log: seq<Event>)

  datatype Setup = Setup(cfg: Config, policy: Retry.RetryPolicy, ttl: Option<int>)

  datatype Step =
    | Start(c: Caller, runId: string)
    | Iterate(c: Caller, turn: Turn)
    | Exhaust(c: Caller)
    | Record(c: Caller, at: int)
    | Look(id: Id, at: int)
    | List(runId: string, at: int)
    | Resolve(id: Id, status: Approvals.ApprovalStatus, at: int)
    | ClaimApproved(c: Caller, id: Id, at: int)
    | Execute(c: Caller, recomputed: Option<Request>, outcome: ToolResult)
    | ClaimRejected(c: Caller, id: Id, at: int)
    | Crash(c: Caller)

  const NOTHING: World := World({}, map[], map[], map[], [])

  predicate NewCaller(w: World, c: Caller)
  {
    c !in w.going && c !in w.finishing
  }

  /** What the program's own control flow and fresh identifiers guarantee about a step. */
  predicate Enabled(x: Setup, w: World, step: Step)
  {
    match step
    case Start(c, runId) => NewCaller(w, c) && runId !in w.runs
    case Iterate(c, turn) =>
      c in w.going && !w.going[c].owes && w.going[c].state.iterations < x.cfg.limits.maxIterations && turn.approvalId !in w.store
    case Exhaust(c) => c in w.going && !w.going[c].owes && w.going[c].state.iterations >= x.cfg.limits.maxIterations
    case Record(c, _) => c in w.finishing
    case ClaimApproved(c, _, _) => NewCaller(w, c)
    case Execute(c, _, _) => c in w.going && w.going[c].owes && w.going[c].origin.Some? && w.going[c].origin.value in w.store
    case ClaimRejected(c, _, _) => NewCaller(w, c)
    case _ => true
  }

  function Iterating(x: Setup, w: World, c: Caller, turn: Turn): World
    requires c in w.going
  {
    var here := w.going[c];
    var (s, effect) := Iterated(x.cfg, x.policy, here.state, turn);
    var log := if effect.Executed? then w.log + [ToolRan(s.runId, effect.request)] else w.log;
    if effect.Crashed? then w.(going := w.going - {c})
    else if Over(s) then
      w.(going := w.going - {c}, finishing := w.finishing[c := Finishing(s, here.origin)], log := log,
         store := Stored(w.store, x.ttl, s, effect))
    else w.(going := w.going[c := here.(state := s)], log := log)
  }

  function ClaimedApproved(w: World, c: Caller, id: Id, at: int): World
  {
    var (store, granted) := Approvals.Claimed(w.store, id, Approvals.Approved, at);
    if granted.Ok? && granted.value.Some?
    then w.(store := store, going := w.going[c := Going(granted.value.value.checkpoint.state, Some(id), true)])
    else w.(store := store)
  }

  function ClaimedRejected(w: World, c: Caller, id: Id, at: int): World
  {
    var (store, granted) := Approvals.Claimed(w.store, id, Approvals.Rejected, at);
    if granted.Ok? && granted.value.Some? then
      var s := RejectedStart(granted.value.value);
      w.(store := store, going := w.going[c := Going(s, Some(id), false)], log := w.log + [RejectionResumed(s.runId, id)])
    else w.(store := store)
  }

  function Executing(w: World, c: Caller, recomputed: Option<Request>, outcome: ToolResult): World
    requires c in w.going && w.going[c].origin.Some? && w.going[c].origin.value in w.store
  {
    var id := w.going[c].origin.value;
    var record := w.store[id].(checkpoint := w.store[id].checkpoint.(state := w.going[c].state));
    var s := ApprovedStart(record, recomputed, outcome);
    w.(going := w.going[c := Going(s, Some(id), false)],
       log := if StillValid(record, recomputed) then w.log + [ApprovedRan(s.runId, id, record.checkpoint.action)] else w.log)
  }

  function Next(x: Setup, w: World, step: Step): World
    requires Enabled(x, w, step)
  {
    match step
    case Start(c, runId) => w.(runs := w.runs + {runId}, going := w.going[c := Going(NewRun(runId), None, false)])
    case Iterate(c, turn) => Iterating(x, w, c, turn)
    case Exhaust(c) =>
      w.(going := w.going - {c}, finishing := w.finishing[c := Finishing(Stopped(w.going[c].state, MaxIterations), w.going[c].origin)])
    case Record(c, at) =>
      var ended := w.finishing[c];
      w.(finishing := w.finishing - {c},
         store := if ended.origin.Some? then Approvals.Finished(w.store, ended.origin.value, ended.state, at).0 else w.store)
    case Look(id, at) => w.(store := Approvals.Seen(w.store, id, at))
    case List(runId, at) => w.(store := Approvals.SeenForRun(w.store, runId, at))
    case Resolve(id, status, at) => w.(store := Approvals.Resolved(w.store, id, status, at).0)
    case ClaimApproved(c, id, at) => ClaimedApproved(w, c, id, at)
    case Execute(c, recomputed, outcome) => Executing(w, c, recomputed, outcome)
    case ClaimRejected(c, id, at) => ClaimedRejected(w, c, id, at)
    case Crash(c) => w.(going := w.going - {c}, finishing := w.finishing - {c})
  }

  // ---- what a run has done, and who may carry it on ----

  /** Tools this run has executed, ordinarily or after approval. */
  function Done(log: seq<Event>, runId: string): nat
  {
    if log == [] then 0
    else
      var last := log[|log| - 1];
      Done(log[..|log| - 1], runId) + if last.runId == runId && !last.RejectionResumed? then 1 else 0
  }

  function Rejections(log: seq<Event>, runId: string): nat
  {
    if log == [] then 0
    else
      var last := log[|log| - 1];
      Rejections(log[..|log| - 1], runId) + if last.runId == runId && last.RejectionResumed? then 1 else 0
  }

  /** The right to carry a run on: a caller has it, or an approval nobody has claimed. */
  datatype Token = Carried(c: Caller) | Awaiting(id: Id)

  predicate Unclaimed(r: Approvals.Record)
  {
    r.request.startedAt.None? && r.request.status in {Approvals.Pending, Approvals.Approved, Approvals.Rejected}
  }

  predicate Holds(w: World, t: Token)
  {
    match t
    case Carried(c) => c in w.going
    case Awaiting(id) => id in w.store && Unclaimed(w.store[id])
  }

  /** The run a token is for, and the tool calls counted in it that have not run yet. */
  datatype Stake = Stake(state: RunState, due: nat)

  function StakeOf(w: World, t: Token): Stake
    requires Holds(w, t)
  {
    match t
    case Carried(c) => Stake(w.going[c].state, if w.going[c].owes then 1 else 0)
    case Awaiting(id) => Stake(w.store[id].checkpoint.state, 1)
  }

  ghost predicate Sound(l: Limits, log: seq<Event>, runs: set<string>, stake: Stake)
  {
    var s := stake.state;
    && s.runId in runs && s.status == Running
    && Kept(l, s, Rejections(log, s.runId))
    && Done(log, s.runId) + stake.due <= s.toolCalls
  }

  ghost predicate TokensSound(l: Limits, w: World)
  {
    forall t :: Holds(w, t) ==> Sound(l, w.log, w.runs, StakeOf(w, t))
  }

  /** No run has two tokens. */
  ghost predicate OneToken(w: World)
  {
    forall t, u :: Holds(w, t) && Holds(w, u) && StakeOf(w, t).state.runId == StakeOf(w, u).state.runId ==> t == u
  }

  predicate CallsBounded(l: Limits, w: World, runId: string)
  {
    Done(w.log, runId) <= l.maxToolCalls && Done(w.log, runId) <= l.maxIterations
  }

  ghost predicate AllBounded(l: Limits, w: World)
  {
    forall runId :: CallsBounded(l, w, runId)
  }

  /** A stored record still says what it was made for. */
  predicate Intact(w: World, id: Id)
    requires id in w.store
  {
    var r := w.store[id];
    && r.request.fingerprint == r.checkpoint.fingerprint == r.checkpoint.action
    && r.checkpoint.state.runId == r.request.runId && r.request.runId in w.runs
  }

  ghost predicate AllIntact(w: World)
  {
    forall id :: id in w.store ==> Intact(w, id)
  }

  /** The approval was approved and someone has started on it. */
  predicate Started(w: World, id: Id)
  {
    id in w.store && w.store[id].request.status == Approvals.Approved && w.store[id].request.startedAt.Some?
  }

  /** Who owes an approved action owes it alone, for an approval that was approved and claimed, and it has not run. */
  ghost predicate DebtsSound(w: World)
  {
    && (forall c :: c in w.going && w.going[c].owes ==>
        && w.going[c].origin.Some? && Started(w, w.going[c].origin.value)
        && w.store[w.going[c].origin.value].request.runId == w.going[c].state.runId
        && !HasRun(w.log, w.going[c].origin.value))
    && (forall c, d :: c in w.going && d in w.going && w.going[c].owes && w.going[d].owes && w.going[c].origin == w.going[d].origin ==> c == d)
  }

  ghost predicate HasRun(log: seq<Event>, id: Id)
  {
    exists i :: 0 <= i < |log| && log[i].ApprovedRan? && log[i].id == id
  }

  /** Every approved execution in the log is of an approved, claimed request, and ran the action asked for. */
  ghost predicate LogSound(w: World)
  {
    && (forall i :: 0 <= i < |w.log| && w.log[i].ApprovedRan? ==>
        && Started(w, w.log[i].id)
        && w.log[i].request == w.store[w.log[i].id].checkpoint.action && w.log[i].runId == w.store[w.log[i].id].request.runId)
    && (forall i, j :: 0 <= i < j < |w.log| && w.log[i].ApprovedRan? && w.log[j].ApprovedRan? ==> w.log[i].id != w.log[j].id)
  }

  /** Whoever has yet to record how a run ended does so for an approval already claimed. */
  ghost predicate OriginsClaimed(w: World)
  {
    && (forall c :: c in w.going && w.going[c].origin.Some? ==>
        ClaimedFor(w, w.going[c].origin.value, w.going[c].state.runId))
    && (forall c :: c in w.finishing && w.finishing[c].origin.Some? ==>
        ClaimedFor(w, w.finishing[c].origin.value, w.finishing[c].state.runId))
  }

  predicate ClaimedFor(w: World, id: Id, runId: string)
  {
    id in w.store && w.store[id].request.startedAt.Some? && w.store[id].request.runId == runId
  }

  ghost predicate LogKnown(w: World)
  {
    forall i :: 0 <= i < |w.log| ==> w.log[i].runId in w.runs
  }

  ghost predicate Records(w: World)
  {
    AllIntact(w) && DebtsSound(w) && LogSound(w) && OriginsClaimed(w) && LogKnown(w)
  }

  ghost predicate Invariant(l: Limits, w: World)
  {
    TokensSound(l, w) && OneToken(w) && AllBounded(l, w) && Records(w)
  }

  // ---- the log ----

  lemma DoneSnoc(log: seq<Event>, e: Event, runId: string)
    ensures Done(log + [e], runId) == Done(log, runId) + if e.runId == runId && !e.RejectionResumed? then 1 else 0
    ensures Rejections(log + [e], runId) == Rejections(log, runId) + if e.runId == runId && e.RejectionResumed? then 1 else 0
  {
    assert (log + [e])[..|log|] == log;
  }

  lemma {:induction false} UnknownRunDidNothing(log: seq<Event>, runs: set<string>, runId: string)
    requires runId !in runs && forall i :: 0 <= i < |log| ==> log[i].runId in runs
    ensures Done(log, runId) == 0 && Rejections(log, runId) == 0
  {
    if log != [] {
      UnknownRunDidNothing(log[..|log| - 1], runs, runId);
    }
  }

  /** The log grew by nothing, or by one event of this run. */
  predicate GrewFor(log: seq<Event>, log': seq<Event>, runId: string)
  {
    log' == log || (|log'| == |log| + 1 && log'[..|log|] == log && log'[|log|].runId == runId)
  }

  lemma OtherRunsUnmoved(log: seq<Event>, log': seq<Event>, runId: string, other: string)
    requires GrewFor(log, log', runId) && other != runId
    ensures Done(log', other) == Done(log, other) && Rejections(log', other) == Rejections(log, other)
  {
    if log' != log {
      assert log' == log + [log'[|log|]];
      DoneSnoc(log, log'[|log|], other);
    }
  }

  // ---- moving tokens ----

  /** Every token of the new world but this one was there, as it was, and is not the one that moved. */
  ghost predicate OthersStay(w: World, w': World, moved: Token, new': Token)
  {
    forall u :: Holds(w', u) && u != new' ==> u != moved && Holds(w, u) && StakeOf(w', u) == StakeOf(w, u)
  }

  /** A token moves from one holder to another, or is lost: the others are not touched and no run gets two. */
  lemma TokenMoves(l: Limits, w: World, w': World, moved: Token, new': Token)
    requires TokensSound(l, w) && OneToken(w) && Holds(w, moved) && w'.runs == w.runs
    requires OthersStay(w, w', moved, new')
    requires GrewFor(w.log, w'.log, StakeOf(w, moved).state.runId)
    requires Holds(w', new') ==>
      StakeOf(w', new').state.runId == StakeOf(w, moved).state.runId && Sound(l, w'.log, w'.runs, StakeOf(w', new'))
    ensures TokensSound(l, w') && OneToken(w')
  {
    hide Kept;
    forall u | Holds(w', u) && u != new'
      ensures Sound(l, w'.log, w'.runs, StakeOf(w', u))
    {
      assert Sound(l, w.log, w.runs, StakeOf(w, u));
      OtherRunsUnmoved(w.log, w'.log, StakeOf(w, moved).state.runId, StakeOf(w, u).state.runId);
    }
    hide Holds, StakeOf, Sound;
  }

  lemma TokensFade(l: Limits, w: World, w': World)
    requires TokensSound(l, w) && OneToken(w) && w'.runs == w.runs && w'.log == w.log
    requires forall u :: Holds(w', u) ==> Holds(w, u) && StakeOf(w', u) == StakeOf(w, u)
    ensures TokensSound(l, w') && OneToken(w')
  {
    hide Holds, StakeOf, Sound;
  }

  // ---- steps that only age, record, or lose things ----

  predicate Drifted(r: Approvals.Record, r': Approvals.Record)
  {
    && r'.request.startedAt == r.request.startedAt
    && r'.request.runId == r.request.runId && r'.request.fingerprint == r.request.fingerprint
    && (r'.request.status == r.request.status || r.request.status == Approvals.Pending)
    && r'.checkpoint.action == r.checkpoint.action && r'.checkpoint.fingerprint == r.checkpoint.fingerprint
    && r'.checkpoint.state.runId == r.checkpoint.state.runId
    && (r'.checkpoint.state == r.checkpoint.state || r.request.startedAt.Some?)
  }

  ghost predicate Drifts(store: Approvals.Store, store': Approvals.Store)
  {
    store'.Keys == store.Keys && forall id :: id in store ==> Drifted(store[id], store'[id])
  }

  ghost predicate FinishingClaimed(w: World)
  {
    forall c :: c in w.finishing && w.finishing[c].origin.Some? ==> ClaimedFor(w, w.finishing[c].origin.value, w.finishing[c].state.runId)
  }

  ghost predicate Shrinks(w: World, w': World)
  {
    && w'.runs == w.runs && w'.log == w.log && Drifts(w.store, w'.store)
    && (forall c :: c in w'.going ==> c in w.going && w'.going[c] == w.going[c])
    && FinishingClaimed(w')
  }

  lemma ShrinkKeepsTokens(l: Limits, w: World, w': World)
    requires TokensSound(l, w) && OneToken(w) && Shrinks(w, w')
    ensures TokensSound(l, w') && OneToken(w')
  {
    forall u | Holds(w', u)
      ensures Holds(w, u) && StakeOf(w', u) == StakeOf(w, u)
    {
    }
    TokensFade(l, w, w');
  }

  lemma ShrinkKeepsRecords(w: World, w': World)
    requires Records(w) && Shrinks(w, w')
    ensures Records(w')
  {
    forall id | id in w'.store
      ensures Intact(w', id)
    {
      assert Intact(w, id);
    }
    forall id | Started(w, id)
      ensures Started(w', id) && w'.store[id].checkpoint.action == w.store[id].checkpoint.action
        && w'.store[id].request.runId == w.store[id].request.runId
    {
    }
    forall id, runId | ClaimedFor(w, id, runId)
      ensures ClaimedFor(w', id, runId)
    {
    }
    hide Intact, Started, ClaimedFor, HasRun;
  }

  lemma ShrinkKeeps(l: Limits, w: World, w': World)
    requires Invariant(l, w) && Shrinks(w, w')
    ensures Invariant(l, w')
  {
    hide Records, TokensSound, OneToken, Shrinks, CallsBounded;
    ShrinkKeepsTokens(l, w, w');
    ShrinkKeepsRecords(w, w');
    BoundsStay(l, w, w');
  }

  lemma BoundsStay(l: Limits, w: World, w': World)
    requires AllBounded(l, w) && Shrinks(w, w')
    ensures AllBounded(l, w')
  {
    forall runId
      ensures CallsBounded(l, w', runId)
    {
      assert CallsBounded(l, w, runId);
    }
  }

  lemma AgingDrifts(store: Approvals.Store, id: Id, at: int)
    ensures Drifts(store, Approvals.Seen(store, id, at))
  {
  }

  lemma ListingDrifts(store: Approvals.Store, runId: string, at: int)
    ensures Drifts(store, Approvals.SeenForRun(store, runId, at))
  {
  }

  lemma ResolvingDrifts(store: Approvals.Store, id: Id, status: Approvals.ApprovalStatus, at: int)
    ensures Drifts(store, Approvals.Resolved(store, id, status, at).0)
  {
  }

  lemma DriftKeepsClaims(w: World, w': World)
    requires Records(w) && Drifts(w.store, w'.store)
    requires forall c :: c in w'.finishing ==> c in w.finishing && w'.finishing[c] == w.finishing[c]
    ensures FinishingClaimed(w')
  {
    forall id, runId | ClaimedFor(w, id, runId)
      ensures ClaimedFor(w', id, runId)
    {
    }
    hide ClaimedFor, AllIntact, DebtsSound, LogSound, LogKnown;
  }

  /** A run that is over moves from those going on to those about to record it. */
  lemma EndingShrinks(w: World, c: Caller, s: RunState)
    requires Records(w) && c in w.going && s.runId == w.going[c].state.runId
    ensures Shrinks(w, w.(going := w.going - {c}, finishing := w.finishing[c := Finishing(s, w.going[c].origin)]))
  {
    hide AllIntact, DebtsSound, LogSound, LogKnown;
    var w' := w.(going := w.going - {c}, finishing := w.finishing[c := Finishing(s, w.going[c].origin)]);
    forall id, runId | ClaimedFor(w, id, runId)
      ensures ClaimedFor(w', id, runId)
    {
    }
    hide ClaimedFor;
  }

  lemma RecordShrinks(x: Setup, w: World, c: Caller, at: int)
    requires Records(w) && c in w.finishing
    ensures Shrinks(w, Next(x, w, Step.Record(c, at)))
  {
    var ended := w.finishing[c];
    var w' := Next(x, w, Step.Record(c, at));
    if ended.origin.Some? {
      assert ClaimedFor(w, ended.origin.value, ended.state.runId);
      assert Intact(w, ended.origin.value);
    }
    assert Drifts(w.store, w'.store);
    hide AllIntact, DebtsSound, LogSound, LogKnown;
    DriftKeepsClaims(w, w');
  }

  // ---- a new run ----

  lemma StartKeepsTokens(x: Setup, w: World, c: Caller, runId: string)
    requires Invariant(x.cfg.limits, w) && ValidLimits(x.cfg.limits) && Enabled(x, w, Start(c, runId))
    ensures var w' := Next(x, w, Start(c, runId));
      TokensSound(x.cfg.limits, w') && OneToken(w')
  {
    var l, w' := x.cfg.limits, Next(x, w, Start(c, runId));
    UnknownRunDidNothing(w.log, w.runs, runId);
    NewRunKept(l, runId);
    hide Kept;
    hide AllBounded, AllIntact, DebtsSound, LogSound, OriginsClaimed, Unclaimed;
    forall u | Holds(w', u)
      ensures Sound(l, w'.log, w'.runs, StakeOf(w', u))
      ensures u != Carried(c) ==> Holds(w, u) && StakeOf(w', u) == StakeOf(w, u) && StakeOf(w, u).state.runId != runId
    {
      if u != Carried(c) {
        assert Holds(w, u) && Sound(l, w.log, w.runs, StakeOf(w, u));
      }
    }
    hide Sound;
  }

  lemma StartKeeps(x: Setup, w: World, c: Caller, runId: string)
    requires Invariant(x.cfg.limits, w) && ValidLimits(x.cfg.limits) && Enabled(x, w, Start(c, runId))
    ensures Invariant(x.cfg.limits, Next(x, w, Start(c, runId)))
  {
    var w' := Next(x, w, Start(c, runId));
    StartKeepsTokens(x, w, c, runId);
    hide TokensSound, OneToken, HasRun;
    forall id | id in w'.store
      ensures Intact(w', id)
    {
      assert Intact(w, id);
    }
    forall r
      ensures CallsBounded(x.cfg.limits, w', r)
    {
      assert CallsBounded(x.cfg.limits, w, r);
    }
  }

  // ---- an iteration ----

  /** What an iteration does to the run's counts: an executed tool is one of the calls it counted. */
  lemma IterationCounts(x: Setup, log: seq<Event>, runs: set<string>, s: RunState, turn: Turn)
    requires Sound(x.cfg.limits, log, runs, Stake(s, 0)) && s.iterations < x.cfg.limits.maxIterations
    ensures var (s', effect) := Iterated(x.cfg, x.policy, s, turn);
      var log' := if effect.Executed? then log + [ToolRan(s'.runId, effect.request)] else log;
      && s'.runId == s.runId && GrewFor(log, log', s.runId)
      && Kept(x.cfg.limits, s', Rejections(log', s.runId))
      && Done(log', s.runId) + (if effect.Paused? then 1 else 0) <= s'.toolCalls
      && (s'.status == WaitingForApproval <==> effect.Paused?)
      && (!Over(s') ==> s'.status == Running)
  {
    hide Iterated, Kept;
    var (s', effect) := Iterated(x.cfg, x.policy, s, turn);
    IterationKeeps(x.cfg, x.policy, s, turn, Rejections(log, s.runId));
    OneAccounts(x.cfg, x.policy, s, turn);
    CountsOne(x.cfg, x.policy, s, turn);
    if !Over(s') {
      StillRunning(x.cfg, x.policy, s, turn);
    }
    if effect.Executed? {
      DoneSnoc(log, ToolRan(s'.runId, effect.request), s.runId);
    }
  }

  lemma KeptBounds(l: Limits, log: seq<Event>, s: RunState, rejections: nat)
    requires Kept(l, s, rejections) && Done(log, s.runId) <= s.toolCalls
    ensures Done(log, s.runId) <= l.maxToolCalls && Done(log, s.runId) <= l.maxIterations
  {
    hide Planning.Supported;
    hide BlocksWithin;
  }

  lemma BoundsGrow(l: Limits, w: World, w': World, runId: string)
    requires AllBounded(l, w) && GrewFor(w.log, w'.log, runId) && CallsBounded(l, w', runId)
    ensures AllBounded(l, w')
  {
    forall r
      ensures CallsBounded(l, w', r)
    {
      assert CallsBounded(l, w, r);
      if r != runId {
        OtherRunsUnmoved(w.log, w'.log, runId, r);
      }
    }
  }

  lemma CarriedSound(l: Limits, w: World, c: Caller)
    requires TokensSound(l, w) && c in w.going
    ensures Sound(l, w.log, w.runs, StakeOf(w, Carried(c)))
  {
    assert Holds(w, Carried(c));
    hide Sound;
  }

  lemma GoingOnKeepsTokens(x: Setup, w: World, c: Caller, turn: Turn)
    requires TokensSound(x.cfg.limits, w) && OneToken(w) && AllBounded(x.cfg.limits, w) && Enabled(x, w, Iterate(c, turn))
    requires var (s, effect) := Iterated(x.cfg, x.policy, w.going[c].state, turn); !effect.Crashed? && !Over(s)
    ensures var w' := Next(x, w, Iterate(c, turn));
      TokensSound(x.cfg.limits, w') && OneToken(w') && AllBounded(x.cfg.limits, w')
  {
    var l, w' := x.cfg.limits, Next(x, w, Iterate(c, turn));
    CarriedSound(l, w, c);
    IterationCounts(x, w.log, w.runs, w.going[c].state, turn);
    hide Iterated, Kept;
    KeptBounds(l, w'.log, w'.going[c].state, Rejections(w'.log, w.going[c].state.runId));
    BoundsGrow(l, w, w', w.going[c].state.runId);
    assert OthersStay(w, w', Carried(c), Carried(c)) by { hide Unclaimed; }
    hide OthersStay;
    TokenMoves(l, w, w', Carried(c), Carried(c));
  }

  lemma EndingKeepsTokens(x: Setup, w: World, c: Caller, turn: Turn)
    requires TokensSound(x.cfg.limits, w) && OneToken(w) && AllBounded(x.cfg.limits, w) && Enabled(x, w, Iterate(c, turn))
    requires var (s, effect) := Iterated(x.cfg, x.policy, w.going[c].state, turn); !effect.Crashed? && Over(s)
    ensures var w' := Next(x, w, Iterate(c, turn));
      TokensSound(x.cfg.limits, w') && OneToken(w') && AllBounded(x.cfg.limits, w')
  {
    var l, w' := x.cfg.limits, Next(x, w, Iterate(c, turn));
    var (s, effect) := Iterated(x.cfg, x.policy, w.going[c].state, turn);
    CarriedSound(l, w, c);
    IterationCounts(x, w.log, w.runs, w.going[c].state, turn);
    PausedTwin(l, s, Rejections(w'.log, s.runId));
    hide Iterated, Kept;
    KeptBounds(l, w'.log, s, Rejections(w'.log, s.runId));
    BoundsGrow(l, w, w', s.runId);
    assert OthersStay(w, w', Carried(c), Awaiting(turn.approvalId)) by { hide Over; EffectNamesApproval(x, w.going[c].state, turn); }
    EffectNamesApproval(x, w.going[c].state, turn);
    hide OthersStay, Over;
    TokenMoves(l, w, w', Carried(c), Awaiting(turn.approvalId));
  }

  lemma EffectNamesApproval(x: Setup, s: RunState, turn: Turn)
    ensures Iterated(x.cfg, x.policy, s, turn).1.Paused? ==> 
      Iterated(x.cfg, x.policy, s, turn).1.approvalId == turn.approvalId && Iterated(x.cfg, x.policy, s, turn).1.was == s.status
  {
    hide FinalCaveats, Evaluation, Trailing, Retry.Succeeds;
  }

  /** The checkpoint of a run that pauses is the run, still going. */
  lemma PausedTwin(l: Limits, s: RunState, rejections: nat)
    requires Kept(l, s, rejections)
    ensures s.status == WaitingForApproval ==> Kept(l, s.(status := Running), rejections)
  {
    hide Planning.Supported;
    hide BlocksWithin;
  }

  // ---- records as the world moves on ----

  predicate Evolved(r: Approvals.Record, r': Approvals.Record)
  {
    && r'.request.runId == r.request.runId
    && r'.checkpoint.action == r.checkpoint.action
    && (r.request.startedAt.Some? ==> r'.request.startedAt.Some?)
    && (r.request.status == Approvals.Approved ==> r'.request.status == Approvals.Approved)
  }

  ghost predicate Evolves(w: World, w': World)
  {
    && w'.runs == w.runs
    && (forall id :: id in w.store ==> id in w'.store && Evolved(w.store[id], w'.store[id]))
    && AllIntact(w')
  }

  /** The one caller that moved stands well with the records. */
  ghost predicate Fits(w: World, c: Caller)
  {
    && (c in w.going && w.going[c].origin.Some? ==> ClaimedFor(w, w.going[c].origin.value, w.going[c].state.runId))
    && (c in w.going && w.going[c].owes ==> w.going[c].origin.Some? && OwesAlone(w, c, w.going[c].origin.value))
    && (c in w.finishing && w.finishing[c].origin.Some? ==> ClaimedFor(w, w.finishing[c].origin.value, w.finishing[c].state.runId))
  }

  ghost predicate OwesAlone(w: World, c: Caller, id: Id)
    requires c in w.going
  {
    && Started(w, id) && w.store[id].request.runId == w.going[c].state.runId && !HasRun(w.log, id)
    && forall d :: d in w.going && d != c && w.going[d].owes ==> w.going[d].origin != Some(id)
  }

  ghost predicate OthersSame(w: World, w': World, c: Caller)
  {
    && (forall d :: d in w'.going && d != c ==> d in w.going && w'.going[d] == w.going[d])
    && (forall d :: d in w'.finishing && d != c ==> d in w.finishing && w'.finishing[d] == w.finishing[d])
  }

  /** An approved execution enters the log only for a started request that has not run and that nobody owes. */
  ghost predicate FirstRun(w: World, w': World, e: Event)
  {
    e.ApprovedRan? ==>
      && Started(w', e.id) && e.request == w'.store[e.id].checkpoint.action && e.runId == w'.store[e.id].request.runId
      && !HasRun(w.log, e.id)
      && forall d :: d in w'.going && w'.going[d].owes ==> w'.going[d].origin != Some(e.id)
  }

  ghost predicate LogGrows(w: World, w': World)
  {
    w'.log == w.log || exists e :: w'.log == w.log + [e] && e.runId in w.runs && FirstRun(w, w', e)
  }

  lemma EvolvedFacts(w: World, w': World)
    requires Evolves(w, w')
    ensures forall id :: Started(w, id) ==>
      Started(w', id) && w'.store[id].checkpoint.action == w.store[id].checkpoint.action && w'.store[id].request.runId == w.store[id].request.runId
    ensures forall id, runId :: ClaimedFor(w, id, runId) ==> ClaimedFor(w', id, runId)
  {
    hide AllIntact;
  }

  lemma LogEvolves(w: World, w': World)
    requires LogSound(w) && LogKnown(w) && Evolves(w, w') && LogGrows(w, w')
    ensures LogSound(w') && LogKnown(w')
  {
    EvolvedFacts(w, w');
    hide Evolves, Started;
    if w'.log != w.log {
      var e :| w'.log == w.log + [e] && e.runId in w.runs && FirstRun(w, w', e);
      forall i | 0 <= i < |w.log| && w.log[i].ApprovedRan? && e.ApprovedRan?
        ensures w.log[i].id != e.id
      {
        assert HasRun(w.log, w.log[i].id);
      }
      hide HasRun;
    }
  }

  lemma HasRunGrows(w: World, w': World, id: Id)
    requires LogGrows(w, w') && HasRun(w'.log, id) && !HasRun(w.log, id)
    ensures exists e :: w'.log == w.log + [e] && e.ApprovedRan? && e.id == id && FirstRun(w, w', e)
  {
    hide FirstRun;
    var e :| w'.log == w.log + [e] && e.runId in w.runs && FirstRun(w, w', e);
    var i :| 0 <= i < |w'.log| && w'.log[i].ApprovedRan? && w'.log[i].id == id;
    assert forall k :: 0 <= k < |w.log| ==> w'.log[k] == w.log[k];
    assert i == |w.log|;
  }

  lemma DebtsEvolve(w: World, w': World, c: Caller)
    requires DebtsSound(w) && Evolves(w, w') && LogGrows(w, w') && OthersSame(w, w', c) && Fits(w', c)
    ensures DebtsSound(w')
  {
    EvolvedFacts(w, w');
    hide Evolves, Started, HasRun, LogGrows;
    forall d | d in w'.going && w'.going[d].owes && d != c
      ensures w'.going[d].origin.Some? && Started(w', w'.going[d].origin.value) && !HasRun(w'.log, w'.going[d].origin.value)
      ensures w'.store[w'.going[d].origin.value].request.runId == w'.going[d].state.runId
    {
      var id := w.going[d].origin.value;
      if HasRun(w'.log, id) {
        HasRunGrows(w, w', id);
        assert false;
      }
    }
  }

  lemma OriginsEvolve(w: World, w': World, c: Caller)
    requires OriginsClaimed(w) && Evolves(w, w') && OthersSame(w, w', c) && Fits(w', c)
    ensures OriginsClaimed(w')
  {
    EvolvedFacts(w, w');
    hide Evolves, ClaimedFor, OwesAlone;
  }

  /** Records stay sound when one caller moves and stands well afterwards. */
  lemma RecordsEvolve(w: World, w': World, c: Caller)
    requires Records(w) && Evolves(w, w') && LogGrows(w, w') && OthersSame(w, w', c) && Fits(w', c)
    ensures Records(w')
  {
    assert AllIntact(w');
    hide Evolves, LogGrows, OthersSame, Fits, AllIntact, DebtsSound, LogSound, OriginsClaimed, LogKnown;
    LogEvolves(w, w');
    DebtsEvolve(w, w', c);
    OriginsEvolve(w, w', c);
  }

  lemma IterateEvolves(x: Setup, w: World, c: Caller, turn: Turn)
    requires TokensSound(x.cfg.limits, w) && Records(w) && Enabled(x, w, Iterate(c, turn))
    requires !Iterated(x.cfg, x.policy, w.going[c].state, turn).1.Crashed?
    ensures Evolves(w, Next(x, w, Iterate(c, turn)))
  {
    var here, w' := w.going[c], Next(x, w, Iterate(c, turn));
    CarriedSound(x.cfg.limits, w, c);
    CountsOne(x.cfg, x.policy, here.state, turn);
    EffectNamesApproval(x, here.state, turn);
    hide Iterated, Kept, Over, DebtsSound, LogSound, LogKnown, OriginsClaimed, TokensSound;
    forall id | id in w'.store
      ensures Intact(w', id)
    {
      if id in w.store {
        assert Intact(w, id);
      }
    }
  }

  lemma IterateLogs(x: Setup, w: World, c: Caller, turn: Turn)
    requires TokensSound(x.cfg.limits, w) && Enabled(x, w, Iterate(c, turn))
    ensures LogGrows(w, Next(x, w, Iterate(c, turn)))
  {
    var w' := Next(x, w, Iterate(c, turn));
    var (s, effect) := Iterated(x.cfg, x.policy, w.going[c].state, turn);
    CarriedSound(x.cfg.limits, w, c);
    CountsOne(x.cfg, x.policy, w.going[c].state, turn);
    hide Iterated, Kept, Over, TokensSound, Stored;
    if w'.log != w.log {
      var e := ToolRan(s.runId, effect.request);
      assert w'.log == w.log + [e] && FirstRun(w, w', e);
    }
  }

  lemma IterateFits(x: Setup, w: World, c: Caller, turn: Turn)
    requires Records(w) && Enabled(x, w, Iterate(c, turn))
    requires Evolves(w, Next(x, w, Iterate(c, turn)))
    ensures Fits(Next(x, w, Iterate(c, turn)), c)
  {
    var here, w' := w.going[c], Next(x, w, Iterate(c, turn));
    CountsOne(x.cfg, x.policy, here.state, turn);
    EvolvedFacts(w, w');
    hide Iterated, Over, Stored, AllIntact, DebtsSound, LogSound, LogKnown, Evolves;
    if here.origin.Some? {
      assert ClaimedFor(w, here.origin.value, here.state.runId);
    }
    hide ClaimedFor;
  }

  lemma IterateKeepsRecords(x: Setup, w: World, c: Caller, turn: Turn)
    requires TokensSound(x.cfg.limits, w) && Records(w) && Enabled(x, w, Iterate(c, turn))
    requires !Iterated(x.cfg, x.policy, w.going[c].state, turn).1.Crashed?
    ensures Records(Next(x, w, Iterate(c, turn)))
  {
    var w' := Next(x, w, Iterate(c, turn));
    assert OthersSame(w, w', c) by { hide Iterated, Over, Stored; }
    hide Next, Iterated, Over, Records, Evolves, LogGrows, OthersSame, Fits, TokensSound;
    IterateEvolves(x, w, c, turn);
    IterateLogs(x, w, c, turn);
    IterateFits(x, w, c, turn);
    RecordsEvolve(w, w', c);
  }

  lemma IterateKeeps(x: Setup, w: World, c: Caller, turn: Turn)
    requires Invariant(x.cfg.limits, w) && Enabled(x, w, Iterate(c, turn))
    ensures Invariant(x.cfg.limits, Next(x, w, Iterate(c, turn)))
  {
    var w' := Next(x, w, Iterate(c, turn));
    var (s, effect) := Iterated(x.cfg, x.policy, w.going[c].state, turn);
    if effect.Crashed? {
      assert Shrinks(w, w') by {
        hide Iterated;
        DriftKeepsClaims(w, w');
      }
      hide Iterated, Next, Shrinks;
      ShrinkKeeps(x.cfg.limits, w, w');
    } else {
      hide Iterated, Records, TokensSound, OneToken, AllBounded, Over;
      IterateKeepsRecords(x, w, c, turn);
      if Over(s) {
        EndingKeepsTokens(x, w, c, turn);
      } else {
        GoingOnKeepsTokens(x, w, c, turn);
      }
    }
  }

  // ---- claims and the approved execution ----

  lemma AwaitingSound(l: Limits, w: World, id: Id)
    requires TokensSound(l, w) && id in w.store && Unclaimed(w.store[id])
    ensures Sound(l, w.log, w.runs, Stake(w.store[id].checkpoint.state, 1))
  {
    assert Holds(w, Awaiting(id));
    hide Sound;
  }

  lemma ClaimApprovedKeepsTokens(x: Setup, w: World, c: Caller, id: Id, at: int)
    requires TokensSound(x.cfg.limits, w) && OneToken(w) && AllBounded(x.cfg.limits, w)
    requires NewCaller(w, c) && Approvals.Claimable(w.store, id, Approvals.Approved, at)
    ensures var w' := ClaimedApproved(w, c, id, at);
      TokensSound(x.cfg.limits, w') && OneToken(w') && AllBounded(x.cfg.limits, w')
  {
    var l, w' := x.cfg.limits, ClaimedApproved(w, c, id, at);
    AwaitingSound(l, w, id);
    assert OthersStay(w, w', Awaiting(id), Carried(c));
    hide OthersStay, Kept;
    TokenMoves(l, w, w', Awaiting(id), Carried(c));
    assert forall r :: CallsBounded(l, w', r) == CallsBounded(l, w, r);
  }

  lemma ClaimEvolves(w: World, w': World, id: Id, expected: Approvals.ApprovalStatus, at: int)
    requires Records(w) && Approvals.Claimable(w.store, id, expected, at)
    requires w'.runs == w.runs && w'.store == Approvals.Claimed(w.store, id, expected, at).0
    ensures Evolves(w, w') && id in w'.store && w'.store[id].request.startedAt.Some?
    ensures w'.store[id].request.runId == w.store[id].request.runId == w.store[id].checkpoint.state.runId
    ensures expected == Approvals.Approved ==> Started(w', id)
  {
    hide DebtsSound, LogSound, LogKnown, OriginsClaimed;
    forall i | i in w'.store
      ensures Intact(w', i)
    {
      assert Intact(w, i);
    }
    assert Intact(w, id);
  }

  lemma UnclaimedNeverRan(w: World, id: Id)
    requires Records(w) && id in w.store && w.store[id].request.startedAt.None?
    ensures !HasRun(w.log, id)
    ensures forall d :: d in w.going && w.going[d].owes ==> w.going[d].origin != Some(id)
  {
  }

  lemma ClaimApprovedKeepsRecords(w: World, c: Caller, id: Id, at: int)
    requires Records(w) && NewCaller(w, c) && Approvals.Claimable(w.store, id, Approvals.Approved, at)
    ensures Records(ClaimedApproved(w, c, id, at))
  {
    var w' := ClaimedApproved(w, c, id, at);
    ClaimEvolves(w, w', id, Approvals.Approved, at);
    UnclaimedNeverRan(w, id);
    hide Records, HasRun, Evolves;
    assert LogGrows(w, w');
    assert OwesAlone(w', c, id);
    assert Fits(w', c);
    hide LogGrows, Fits;
    RecordsEvolve(w, w', c);
  }

  lemma ClaimRejectedKeepsRecords(w: World, c: Caller, id: Id, at: int)
    requires Records(w) && NewCaller(w, c) && Approvals.Claimable(w.store, id, Approvals.Rejected, at)
    ensures Records(ClaimedRejected(w, c, id, at))
  {
    var w' := ClaimedRejected(w, c, id, at);
    ClaimEvolves(w, w', id, Approvals.Rejected, at);
    assert w.store[id].request.runId in w.runs by { assert Intact(w, id); }
    hide Records, Evolves, Approvals.Claimed;
    var e := RejectionResumed(w'.going[c].state.runId, id);
    assert w'.log == w.log + [e] && FirstRun(w, w', e);
    assert Fits(w', c);
    hide Fits, FirstRun;
    RecordsEvolve(w, w', c);
  }

  lemma RejectedStartSound(l: Limits, log: seq<Event>, runs: set<string>, id: Id, r: Approvals.Record)
    requires Sound(l, log, runs, Stake(r.checkpoint.state, 1))
    ensures var s := RejectedStart(r);
      && s.runId == r.checkpoint.state.runId
      && Sound(l, log + [RejectionResumed(s.runId, id)], runs, Stake(s, 0))
      && Done(log + [RejectionResumed(s.runId, id)], s.runId) <= Done(log, s.runId)
  {
    var c := r.checkpoint;
    ObservedKeeps(c.state, c.action.tool, false, Planning.NotDict);
    DoneSnoc(log, RejectionResumed(c.state.runId, id), c.state.runId);
    hide Planning.Supported;
    hide BlocksWithin;
  }

  lemma ClaimRejectedKeepsTokens(x: Setup, w: World, c: Caller, id: Id, at: int)
    requires TokensSound(x.cfg.limits, w) && OneToken(w) && AllBounded(x.cfg.limits, w)
    requires NewCaller(w, c) && Approvals.Claimable(w.store, id, Approvals.Rejected, at)
    ensures var w' := ClaimedRejected(w, c, id, at);
      TokensSound(x.cfg.limits, w') && OneToken(w') && AllBounded(x.cfg.limits, w')
  {
    var l, w' := x.cfg.limits, ClaimedRejected(w, c, id, at);
    AwaitingSound(l, w, id);
    var started := w.store[id].(request := w.store[id].request.(startedAt := Some(at)));
    RejectedStartSound(l, w.log, w.runs, id, started);
    hide Sound;
    assert OthersStay(w, w', Awaiting(id), Carried(c));
    hide OthersStay, RejectedStart;
    TokenMoves(l, w, w', Awaiting(id), Carried(c));
    assert CallsBounded(l, w, w.store[id].checkpoint.state.runId);
    BoundsGrow(l, w, w', w.store[id].checkpoint.state.runId);
  }

  lemma ApprovedStartSound(l: Limits, log: seq<Event>, runs: set<string>, id: Id, r: Approvals.Record, recomputed: Option<Request>, outcome: ToolResult)
    requires Sound(l, log, runs, Stake(r.checkpoint.state, 1))
    ensures var s := ApprovedStart(r, recomputed, outcome);
      var log' := if StillValid(r, recomputed) then log + [ApprovedRan(s.runId, id, r.checkpoint.action)] else log;
      && s.runId == r.checkpoint.state.runId && GrewFor(log, log', s.runId)
      && Sound(l, log', runs, Stake(s, 0))
  {
    var c := r.checkpoint;
    ObservedKeeps(c.state, c.action.tool, false, Planning.NotDict);
    ObservedKeeps(c.state, c.action.tool, outcome.success, outcome.output);
    DoneSnoc(log, ApprovedRan(c.state.runId, id, c.action), c.state.runId);
    hide Planning.Supported;
    hide BlocksWithin;
  }

  lemma ExecuteKeepsTokens(x: Setup, w: World, c: Caller, recomputed: Option<Request>, outcome: ToolResult)
    requires TokensSound(x.cfg.limits, w) && OneToken(w) && AllBounded(x.cfg.limits, w) && Enabled(x, w, Execute(c, recomputed, outcome))
    ensures var w' := Executing(w, c, recomputed, outcome);
      TokensSound(x.cfg.limits, w') && OneToken(w') && AllBounded(x.cfg.limits, w')
  {
    var l, w', id := x.cfg.limits, Executing(w, c, recomputed, outcome), w.going[c].origin.value;
    CarriedSound(l, w, c);
    var record := w.store[id].(checkpoint := w.store[id].checkpoint.(state := w.going[c].state));
    ApprovedStartSound(l, w.log, w.runs, id, record, recomputed, outcome);
    hide ApprovedStart, Kept;
    var s := ApprovedStart(record, recomputed, outcome);
    KeptBounds(l, w'.log, s, Rejections(w'.log, s.runId));
    BoundsGrow(l, w, w', s.runId);
    hide Sound;
    assert OthersStay(w, w', Carried(c), Carried(c));
    hide OthersStay;
    TokenMoves(l, w, w', Carried(c), Carried(c));
  }

  lemma ExecuteKeepsRecords(x: Setup, w: World, c: Caller, recomputed: Option<Request>, outcome: ToolResult)
    requires Records(w) && Enabled(x, w, Execute(c, recomputed, outcome))
    ensures Records(Executing(w, c, recomputed, outcome))
  {
    var w', id := Executing(w, c, recomputed, outcome), w.going[c].origin.value;
    assert Intact(w, id);
    assert Evolves(w, w') by {
      forall i | i in w'.store
        ensures Intact(w', i)
      {
        assert Intact(w, i);
      }
    }
    assert LogGrows(w, w') by {
      if w'.log != w.log {
        var e := w'.log[|w.log|];
        assert w'.log == w.log + [e];
        assert FirstRun(w, w', e) by { hide HasRun; }
      }
    }
    assert Fits(w', c) by {
      assert ClaimedFor(w, id, w.going[c].state.runId);
    }
    hide Evolves, LogGrows, Records, Fits;
    RecordsEvolve(w, w', c);
  }

  // ---- every step, every behaviour ----

  /** Steps that touch the store only by looking, listing, deciding or failing to claim. */
  lemma AgingKeeps(l: Limits, w: World, w': World)
    requires Invariant(l, w) && w' == w.(store := w'.store) && Drifts(w.store, w'.store)
    ensures Invariant(l, w')
  {
    assert Shrinks(w, w') by {
      hide Drifts, TokensSound, OneToken, AllBounded;
      DriftKeepsClaims(w, w');
    }
    hide Invariant, Shrinks, Drifts;
    ShrinkKeeps(l, w, w');
  }

  lemma RefusedClaimKeeps(l: Limits, w: World, w': World, id: Id, expected: Approvals.ApprovalStatus, at: int)
    requires Invariant(l, w) && !Approvals.Claimable(w.store, id, expected, at)
    requires w' == w.(store := Approvals.Claimed(w.store, id, expected, at).0)
    ensures Invariant(l, w')
  {
    assert w'.store == Approvals.Seen(w.store, id, at);
    AgingDrifts(w.store, id, at);
    hide Invariant, Drifts;
    AgingKeeps(l, w, w');
  }

  lemma CrashKeeps(l: Limits, w: World, c: Caller)
    requires Invariant(l, w)
    ensures Invariant(l, w.(going := w.going - {c}, finishing := w.finishing - {c}))
  {
    var w' := w.(going := w.going - {c}, finishing := w.finishing - {c});
    assert Shrinks(w, w') by {
      hide TokensSound, OneToken, AllBounded;
      DriftKeepsClaims(w, w');
    }
    hide Invariant, Shrinks;
    ShrinkKeeps(l, w, w');
  }

  lemma ExhaustKeeps(x: Setup, w: World, c: Caller)
    requires Invariant(x.cfg.limits, w) && Enabled(x, w, Exhaust(c))
    ensures Invariant(x.cfg.limits, Next(x, w, Exhaust(c)))
  {
    var s := Stopped(w.going[c].state, MaxIterations);
    hide TokensSound, OneToken, AllBounded, Shrinks, Records;
    EndingShrinks(w, c, s);
    ShrinkKeeps(x.cfg.limits, w, Next(x, w, Exhaust(c)));
  }

  lemma RecordKeeps(x: Setup, w: World, c: Caller, at: int)
    requires Invariant(x.cfg.limits, w) && c in w.finishing
    ensures Invariant(x.cfg.limits, Next(x, w, Step.Record(c, at)))
  {
    hide TokensSound, OneToken, AllBounded, Shrinks, Records, Next;
    RecordShrinks(x, w, c, at);
    ShrinkKeeps(x.cfg.limits, w, Next(x, w, Step.Record(c, at)));
  }

  lemma ClaimApprovedKeeps(x: Setup, w: World, c: Caller, id: Id, at: int)
    requires Invariant(x.cfg.limits, w) && NewCaller(w, c)
    ensures Invariant(x.cfg.limits, ClaimedApproved(w, c, id, at))
  {
    if Approvals.Claimable(w.store, id, Approvals.Approved, at) {
      hide TokensSound, OneToken, AllBounded, Records, ClaimedApproved, Approvals.Claimable;
      ClaimApprovedKeepsTokens(x, w, c, id, at);
      ClaimApprovedKeepsRecords(w, c, id, at);
    } else {
      hide Invariant, Approvals.Seen, Approvals.Claimable;
      RefusedClaimKeeps(x.cfg.limits, w, ClaimedApproved(w, c, id, at), id, Approvals.Approved, at);
    }
  }

  lemma ClaimRejectedKeeps(x: Setup, w: World, c: Caller, id: Id, at: int)
    requires Invariant(x.cfg.limits, w) && NewCaller(w, c)
    ensures Invariant(x.cfg.limits, ClaimedRejected(w, c, id, at))
  {
    if Approvals.Claimable(w.store, id, Approvals.Rejected, at) {
      hide TokensSound, OneToken, AllBounded, Records, ClaimedRejected, Approvals.Claimable;
      ClaimRejectedKeepsTokens(x, w, c, id, at);
      ClaimRejectedKeepsRecords(w, c, id, at);
    } else {
      hide Invariant, Approvals.Seen, Approvals.Claimable;
      RefusedClaimKeeps(x.cfg.limits, w, ClaimedRejected(w, c, id, at), id, Approvals.Rejected, at);
    }
  }

  lemma ExecuteKeeps(x: Setup, w: World, c: Caller, recomputed: Option<Request>, outcome: ToolResult)
    requires Invariant(x.cfg.limits, w) && Enabled(x, w, Execute(c, recomputed, outcome))
    ensures Invariant(x.cfg.limits, Executing(w, c, recomputed, outcome))
  {
    hide TokensSound, OneToken, AllBounded, Records, Executing;
    ExecuteKeepsTokens(x, w, c, recomputed, outcome);
    ExecuteKeepsRecords(x, w, c, recomputed, outcome);
  }

  /** Every step of every caller keeps the invariant. */
  lemma NextKeeps(x: Setup, w: World, step: Step)
    requires ValidLimits(x.cfg.limits) && Invariant(x.cfg.limits, w) && Enabled(x, w, step)
    ensures Invariant(x.cfg.limits, Next(x, w, step))
  {
    hide Invariant, Iterating, ClaimedApproved, ClaimedRejected, Executing, Drifts;
    var l := x.cfg.limits;
    match step
    case Start(c, runId) => StartKeeps(x, w, c, runId);
    case Iterate(c, turn) => IterateKeeps(x, w, c, turn);
    case Exhaust(c) => ExhaustKeeps(x, w, c);
    case Record(c, at) => RecordKeeps(x, w, c, at);
    case Look(id, at) =>
      AgingDrifts(w.store, id, at);
      AgingKeeps(l, w, Next(x, w, step));
    case List(runId, at) =>
      ListingDrifts(w.store, runId, at);
      AgingKeeps(l, w, Next(x, w, step));
    case Resolve(id, status, at) =>
      ResolvingDrifts(w.store, id, status, at);
      AgingKeeps(l, w, Next(x, w, step));
    case ClaimApproved(c, id, at) => ClaimApprovedKeeps(x, w, c, id, at);
    case Execute(c, recomputed, outcome) => ExecuteKeeps(x, w, c, recomputed, outcome);
    case ClaimRejected(c, id, at) => ClaimRejectedKeeps(x, w, c, id, at);
    case Crash(c) => CrashKeeps(l, w, c);
  }

  predicate Legal(x: Setup, w: World, steps: seq<Step>)
    decreases |steps|
  {
    steps == [] || (Enabled(x, w, steps[0]) && Legal(x, Next(x, w, steps[0]), steps[1..]))
  }

  function After(x: Setup, w: World, steps: seq<Step>): World
    requires Legal(x, w, steps)
    decreases |steps|
  {
    if steps == [] then w else After(x, Next(x, w, steps[0]), steps[1..])
  }

  lemma {:induction false} BehaviourKeeps(x: Setup, w: World, steps: seq<Step>)
    requires ValidLimits(x.cfg.limits) && Invariant(x.cfg.limits, w) && Legal(x, w, steps)
    ensures Invariant(x.cfg.limits, After(x, w, steps))
    decreases |steps|
  {
    if steps != [] {
      hide Next, Enabled, Invariant;
      NextKeeps(x, w, steps[0]);
      BehaviourKeeps(x, Next(x, w, steps[0]), steps[1..]);
    }
  }

  lemma NothingKept(x: Setup)
    requires ValidLimits(x.cfg.limits)
    ensures Invariant(x.cfg.limits, NOTHING)
  {
    assert forall r :: CallsBounded(x.cfg.limits, NOTHING, r);
  }

  // ---- what the invariant promises ----

  /** However resumers, approvers, expiry and crashes interleave, no run is ever carried on from two places. */
  lemma OneContinuation(x: Setup, steps: seq<Step>, t: Token, u: Token)
    requires ValidLimits(x.cfg.limits) && Legal(x, NOTHING, steps)
    requires var w := After(x, NOTHING, steps);
      Holds(w, t) && Holds(w, u) && StakeOf(w, t).state.runId == StakeOf(w, u).state.runId
    ensures t == u
  {
    NothingKept(x);
    BehaviourKeeps(x, NOTHING, steps);
    hide Holds, StakeOf, After, Legal;
  }

  /** An approval's action runs at most once, only after the approval was approved and claimed, and it is the action asked for. */
  lemma ApprovedActionRunsOnce(x: Setup, steps: seq<Step>, i: nat, j: nat)
    requires ValidLimits(x.cfg.limits) && Legal(x, NOTHING, steps)
    requires var log := After(x, NOTHING, steps).log;
      i < |log| && j < |log| && log[i].ApprovedRan? && log[j].ApprovedRan? && log[i].id == log[j].id
    ensures i == j
    ensures var w := After(x, NOTHING, steps);
      && Started(w, w.log[i].id) && w.log[i].request == w.store[w.log[i].id].checkpoint.action
      && w.log[i].runId == w.store[w.log[i].id].request.runId
  {
    NothingKept(x);
    BehaviourKeeps(x, NOTHING, steps);
    hide After, Legal, TokensSound, OneToken, AllBounded, Started;
  }

  /** Rejected, expired and undecided approvals have executed nothing. */
  lemma OnlyApprovedRun(x: Setup, steps: seq<Step>, id: Id)
    requires ValidLimits(x.cfg.limits) && Legal(x, NOTHING, steps)
    requires var w := After(x, NOTHING, steps); id in w.store && w.store[id].request.status != Approvals.Approved
    ensures !HasRun(After(x, NOTHING, steps).log, id)
  {
    NothingKept(x);
    BehaviourKeeps(x, NOTHING, steps);
    hide After, Legal, TokensSound, OneToken, AllBounded;
  }

  /**
   Across all pauses and resumes a run's executed tools, ordinary and approved, stay within both
   limits and within the calls counted by whoever carries the run on.
   */
  lemma ToolsWithinBudget(x: Setup, steps: seq<Step>, runId: string)
    requires ValidLimits(x.cfg.limits) && Legal(x, NOTHING, steps)
    ensures var w := After(x, NOTHING, steps);
      && Done(w.log, runId) <= x.cfg.limits.maxToolCalls && Done(w.log, runId) <= x.cfg.limits.maxIterations
      && forall t :: Holds(w, t) && StakeOf(w, t).state.runId == runId ==>
          var s := StakeOf(w, t).state;
          && Done(w.log, runId) + StakeOf(w, t).due <= s.toolCalls <= s.iterations <= x.cfg.limits.maxIterations
          && s.toolCalls <= x.cfg.limits.maxToolCalls
          && s.errors < x.cfg.limits.maxErrors + Rejections(w.log, runId)
  {
    NothingKept(x);
    BehaviourKeeps(x, NOTHING, steps);
    var l, w := x.cfg.limits, After(x, NOTHING, steps);
    hide After, Legal, Records, OneToken;
    assert CallsBounded(l, w, runId);
    forall t | Holds(w, t) && StakeOf(w, t).state.runId == runId
      ensures var s := StakeOf(w, t).state;
        && Done(w.log, runId) + StakeOf(w, t).due <= s.toolCalls <= s.iterations <= l.maxIterations
        && s.toolCalls <= l.maxToolCalls && s.errors < l.maxErrors + Rejections(w.log, runId)
    {
      SoundMeans(l, w.log, w.runs, StakeOf(w, t));
    }
    hide Holds, StakeOf;
  }

  lemma SoundMeans(l: Limits, log: seq<Event>, runs: set<string>, stake: Stake)
    requires Sound(l, log, runs, stake)
    ensures var s := stake.state;
      && Done(log, s.runId) + stake.due <= s.toolCalls <= s.iterations <= l.maxIterations
      && s.toolCalls <= l.maxToolCalls && s.errors < l.maxErrors + Rejections(log, s.runId)
  {
    hide Evidenced, BlocksWithin, Numbered;
  }

  /** Whoever carries a run on, its plan is backed by evidence and no request stands repeated past the limit. */
  lemma CarriedRunsStaySound(x: Setup, steps: seq<Step>, t: Token)
    requires ValidLimits(x.cfg.limits) && Legal(x, NOTHING, steps) && Holds(After(x, NOTHING, steps), t)
    ensures var s := StakeOf(After(x, NOTHING, steps), t).state;
      && (s.plan.Some? ==> Planning.Supported(s.plan.value, s.observations))
      && BlocksWithin(s.fingerprints, x.cfg.limits.maxDuplicates)
  {
    NothingKept(x);
    BehaviourKeeps(x, NOTHING, steps);
    var w := After(x, NOTHING, steps);
    hide After, Legal, Records, OneToken;
    hide Planning.Supported;
    assert Sound(x.cfg.limits, w.log, w.runs, StakeOf(w, t));
  }

  /** The action an approval was asked for never changes afterwards. */
  lemma ActionNeverChanges(x: Setup, w: World, step: Step, id: Id)
    requires Enabled(x, w, step) && id in w.store
    ensures var w' := Next(x, w, step);
      && id in w'.store && w'.store[id].checkpoint.action == w.store[id].checkpoint.action
      && w'.store[id].request.fingerprint == w.store[id].request.fingerprint
  {
    match step
    case Iterate(c, turn) =>
      EffectNamesApproval(x, w.going[c].state, turn);
      hide Iterated;
    case _ =>
  }
}
