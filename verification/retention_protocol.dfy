/**
 Any number of retention workers over one registry, with crashes (backend/app/artifacts/store.py:235-269,
 backend/app/artifacts/retention.py:49-78). A claim of a batch is a claim of each of its artifacts at
 the same moment; steps of different workers interleave freely.
 */
module RetentionProtocol {
  import opened Common
  import opened Artifacts

  /** A worker's hold on one artifact, claimed for one moment. */
  datatype Hold = Hold(id: string, workspace: string, since: int)

  type HoldId = nat

  /** `overdue` counts, for each artifact, the claims that were settled past `staleAfter`. */
  datatype World = World(clock: int, registry: Registry, holds: map<HoldId, Hold>, overdue: map<string, nat>)

  datatype Rules = Rules(staleAfter: int, maxAttempts: int)

  datatype Step =
    | Tick(to: int)
    | Claim(h: HoldId, id: string, reference: int)
    | Settle(h: HoldId, error: Option<string>, at: int)
    | Crash(h: HoldId)
    | Register(artifact: Artifact)

  function OverdueOf(w: World, id: string): nat
  {
    if id in w.overdue then w.overdue[id] else 0
  }

  predicate Enabled(x: Rules, w: World, step: Step)
  {
    match step
    case Tick(to) => w.clock <= to
    case Claim(h, id, reference) =>
      h !in w.holds && id in w.registry.artifacts && reference <= w.clock
      && Eligible(w.registry.artifacts[id], reference, x.staleAfter, Some(x.maxAttempts))
    case Settle(h, _, _) => h in w.holds
    case Crash(h) => h in w.holds
    case Register(a) => a.id !in w.registry.artifacts && a.attempts == 0 && OverdueOf(w, a.id) == 0
  }

  predicate PastDue(x: Rules, w: World, hold: Hold)
  {
    w.clock > hold.since + x.staleAfter
  }

  /** The registry once a claimed artifact's file was discarded, or was not. */
  function SettledRegistry(r: Registry, hold: Hold, error: Option<string>, at: int): Registry
  {
    match error
    case None => MarkedDeleted(r, hold.workspace, hold.id, at)
    case Some(text) => FailureRecorded(r, hold.workspace, hold.id, text)
  }

  function Next(x: Rules, w: World, step: Step): World
    requires Enabled(x, w, step)
  {
    match step
    case Tick(to) => w.(clock := to)
    case Claim(h, id, reference) =>
      var a := w.registry.artifacts[id];
      w.(registry := w.registry.(artifacts := w.registry.artifacts[id := a.(claimedAt := Some(reference))]),
         holds := w.holds[h := Hold(id, a.workspace, reference)])
    case Settle(h, error, at) =>
      var hold := w.holds[h];
      w.(registry := SettledRegistry(w.registry, hold, error, at), holds := w.holds - {h},
         overdue := if PastDue(x, w, hold) then w.overdue[hold.id := OverdueOf(w, hold.id) + 1] else w.overdue)
    case Crash(h) => w.(holds := w.holds - {h})
    case Register(a) =>
      w.(registry := Registry(w.registry.order + [a.id], w.registry.artifacts[a.id := a]))
  }

  // ---- who holds an artifact ----

  function Holders(w: World, id: string): set<HoldId>
  {
    set h | h in w.holds && w.holds[h].id == id
  }

  function Late(x: Rules, w: World, id: string): set<HoldId>
  {
    set h | h in w.holds && w.holds[h].id == id && PastDue(x, w, w.holds[h])
  }

  function OnTime(x: Rules, w: World, id: string): set<HoldId>
  {
    set h | h in w.holds && w.holds[h].id == id && !PastDue(x, w, w.holds[h])
  }

  lemma HoldersSplit(x: Rules, w: World, id: string)
    ensures |Holders(w, id)| == |Late(x, w, id)| + |OnTime(x, w, id)|
  {
    assert Holders(w, id) == Late(x, w, id) + OnTime(x, w, id);
    assert Late(x, w, id) !! OnTime(x, w, id);
  }

  /** The artifact's claim is that of a holder still in time. */
  predicate Owned(x: Rules, w: World, id: string)
  {
    id in w.registry.artifacts && w.registry.artifacts[id].claimedAt.Some?
    && exists h :: h in w.holds && w.holds[h].id == id && w.holds[h].since == w.registry.artifacts[id].claimedAt.value
         && !PastDue(x, w, w.holds[h])
  }

  function Claims(x: Rules, w: World, id: string): nat
  {
    if Owned(x, w, id) then 1 else 0
  }

  /** How many hold an artifact in time, and how far its attempts can go, told by the claims settled past due. */
  predicate Counted(x: Rules, w: World, id: string)
  {
    && |OnTime(x, w, id)| <= OverdueOf(w, id) + Claims(x, w, id)
    && (id in w.registry.artifacts ==>
        w.registry.artifacts[id].attempts + |OnTime(x, w, id)| <= x.maxAttempts + OverdueOf(w, id))
  }

  ghost predicate AllCounted(x: Rules, w: World)
  {
    forall id :: Counted(x, w, id)
  }

  /** A hold is of a registered artifact and names its workspace. */
  ghost predicate HoldsKnown(w: World)
  {
    forall h :: h in w.holds ==>
      w.holds[h].id in w.registry.artifacts && w.registry.artifacts[w.holds[h].id].workspace == w.holds[h].workspace
  }

  ghost predicate Invariant(x: Rules, w: World)
  {
    AllCounted(x, w) && HoldsKnown(w)
  }

  lemma SmallerSubset(a: set<HoldId>, b: set<HoldId>)
    requires a <= b
    ensures |a| <= |b|
  {
    if a != {} {
      var h :| h in a;
      SmallerSubset(a - {h}, b - {h});
    }
  }

  // ---- every step ----

  lemma KnownStep(x: Rules, w: World, step: Step)
    requires HoldsKnown(w) && Enabled(x, w, step)
    ensures HoldsKnown(Next(x, w, step))
  {
    hide Eligible, PastDue;
  }

  lemma TickCounts(x: Rules, w: World, to: int, id: string)
    requires Counted(x, w, id) && w.clock <= to
    ensures Counted(x, w.(clock := to), id)
  {
    var w' := w.(clock := to);
    assert OnTime(x, w', id) <= OnTime(x, w, id);
    SmallerSubset(OnTime(x, w', id), OnTime(x, w, id));
    if Owned(x, w, id) && !Owned(x, w', id) {
      var h :| h in w.holds && w.holds[h].id == id && w.holds[h].since == w.registry.artifacts[id].claimedAt.value && !PastDue(x, w, w.holds[h]);
      assert h !in OnTime(x, w', id) && OnTime(x, w', id) <= OnTime(x, w, id) - {h};
      SmallerSubset(OnTime(x, w', id), OnTime(x, w, id) - {h});
    }
  }

  lemma ClaimCounts(x: Rules, w: World, h: HoldId, id: string, reference: int)
    requires Counted(x, w, id) && Enabled(x, w, Claim(h, id, reference))
    ensures Counted(x, Next(x, w, Claim(h, id, reference)), id)
  {
    var w' := Next(x, w, Claim(h, id, reference));
    assert !Owned(x, w, id);
    var hold := w'.holds[h];
    if PastDue(x, w', hold) {
      assert OnTime(x, w', id) == OnTime(x, w, id);
    } else {
      assert OnTime(x, w', id) == OnTime(x, w, id) + {h};
      assert Owned(x, w', id);
    }
  }

  lemma SettleCounts(x: Rules, w: World, h: HoldId, error: Option<string>, at: int)
    requires h in w.holds && Counted(x, w, w.holds[h].id) && HoldsKnown(w)
    ensures Counted(x, Next(x, w, Settle(h, error, at)), w.holds[h].id)
  {
    var hold, w' := w.holds[h], Next(x, w, Settle(h, error, at));
    assert w'.registry.artifacts[hold.id].claimedAt.None?;
    if PastDue(x, w, hold) {
      assert OnTime(x, w', hold.id) == OnTime(x, w, hold.id);
    } else {
      assert OnTime(x, w', hold.id) == OnTime(x, w, hold.id) - {h};
      assert h in OnTime(x, w, hold.id);
    }
  }

  lemma CrashCounts(x: Rules, w: World, h: HoldId)
    requires h in w.holds && Counted(x, w, w.holds[h].id)
    ensures Counted(x, Next(x, w, Crash(h)), w.holds[h].id)
  {
    var id, w' := w.holds[h].id, Next(x, w, Crash(h));
    if PastDue(x, w, w.holds[h]) {
      assert OnTime(x, w', id) == OnTime(x, w, id);
      if Owned(x, w, id) {
        var g :| g in w.holds && w.holds[g].id == id && w.holds[g].since == w.registry.artifacts[id].claimedAt.value && !PastDue(x, w, w.holds[g]);
        assert g in w'.holds && !PastDue(x, w', w'.holds[g]);
        assert Owned(x, w', id);
      }
    } else {
      assert OnTime(x, w', id) == OnTime(x, w, id) - {h} && h in OnTime(x, w, id);
    }
  }

  /** The artifact a step is about; none for the clock. */
  function About(w: World, step: Step): Option<string>
  {
    match step
    case Tick(_) => None
    case Claim(_, id, _) => Some(id)
    case Settle(h, _, _) => if h in w.holds then Some(w.holds[h].id) else None
    case Crash(h) => if h in w.holds then Some(w.holds[h].id) else None
    case Register(a) => Some(a.id)
  }

  lemma OthersCounted(x: Rules, w: World, step: Step, id: string)
    requires Counted(x, w, id) && Enabled(x, w, step) && !step.Tick? && About(w, step) != Some(id)
    ensures Counted(x, Next(x, w, step), id)
  {
    hide Eligible;
    var w' := Next(x, w, step);
    assert OnTime(x, w', id) == OnTime(x, w, id);
    assert id in w.registry.artifacts <==> id in w'.registry.artifacts;
    assert id in w.registry.artifacts ==> w'.registry.artifacts[id] == w.registry.artifacts[id];
    if Owned(x, w, id) {
      var g :| g in w.holds && w.holds[g].id == id && w.holds[g].since == w.registry.artifacts[id].claimedAt.value && !PastDue(x, w, w.holds[g]);
      assert g in w'.holds && w'.holds[g] == w.holds[g];
      assert Owned(x, w', id);
    }
  }

  lemma RegisterCounts(x: Rules, w: World, a: Artifact)
    requires HoldsKnown(w) && Enabled(x, w, Register(a)) && x.maxAttempts >= 0
    ensures Counted(x, Next(x, w, Register(a)), a.id)
  {
    assert OnTime(x, Next(x, w, Register(a)), a.id) == {};
  }

  lemma StepKeeps(x: Rules, w: World, step: Step)
    requires Invariant(x, w) && Enabled(x, w, step) && x.maxAttempts >= 0
    ensures Invariant(x, Next(x, w, step))
  {
    KnownStep(x, w, step);
    hide Counted;
    forall id
      ensures Counted(x, Next(x, w, step), id)
    {
      assert Counted(x, w, id);
      if !step.Tick? && About(w, step) != Some(id) {
        OthersCounted(x, w, step, id);
      } else {
        hide HoldsKnown;
        match step
        case Tick(to) => TickCounts(x, w, to, id);
        case Claim(h, _, reference) => ClaimCounts(x, w, h, id, reference);
        case Settle(h, error, at) => SettleCounts(x, w, h, error, at);
        case Crash(h) => CrashCounts(x, w, h);
        case Register(a) => RegisterCounts(x, w, a);
      }
    }
  }

  // ---- whole runs ----

  predicate Legal(x: Rules, w: World, steps: seq<Step>)
    decreases |steps|
  {
    steps == [] || (Enabled(x, w, steps[0]) && Legal(x, Next(x, w, steps[0]), steps[1..]))
  }

  function After(x: Rules, w: World, steps: seq<Step>): World
    requires Legal(x, w, steps)
    decreases |steps|
  {
    if steps == [] then w else After(x, Next(x, w, steps[0]), steps[1..])
  }

  function Start(clock: int, registry: Registry): World
  {
    World(clock, registry, map[], map[])
  }

  lemma {:induction false} RunKeeps(x: Rules, w: World, steps: seq<Step>)
    requires Invariant(x, w) && Legal(x, w, steps) && x.maxAttempts >= 0
    ensures Invariant(x, After(x, w, steps))
    decreases |steps|
  {
    if steps != [] {
      hide Invariant, Enabled, Next;
      StepKeeps(x, w, steps[0]);
      RunKeeps(x, Next(x, w, steps[0]), steps[1..]);
    }
  }

  lemma StartCounted(x: Rules, clock: int, registry: Registry)
    requires AttemptsBounded(registry, x.maxAttempts)
    ensures Invariant(x, Start(clock, registry))
  {
    forall id
      ensures Counted(x, Start(clock, registry), id)
    {
      assert OnTime(x, Start(clock, registry), id) == {};
    }
  }

  /**
   However workers interleave, crash and come late: an artifact's failed attempts and its live
   holders together exceed `max_attempts` by at most the claims that ran past `staleAfter`, whether
   they are still held or have been settled.
   */
  lemma AttemptsWithinLateness(x: Rules, clock: int, registry: Registry, steps: seq<Step>, id: string)
    requires AttemptsBounded(registry, x.maxAttempts) && x.maxAttempts >= 0
    requires Legal(x, Start(clock, registry), steps) && id in After(x, Start(clock, registry), steps).registry.artifacts
    ensures var w := After(x, Start(clock, registry), steps);
      w.registry.artifacts[id].attempts + |Holders(w, id)| <= x.maxAttempts + |Late(x, w, id)| + OverdueOf(w, id)
  {
    StartCounted(x, clock, registry);
    RunKeeps(x, Start(clock, registry), steps);
    hide After, Legal, HoldsKnown;
    var w := After(x, Start(clock, registry), steps);
    HoldersSplit(x, w, id);
    assert Counted(x, w, id);
  }

  // ---- prompt workers ----

  /** Every live claim is settled within `staleAfter` of the moment it was made for. */
  ghost predicate Prompt(x: Rules, w: World, step: Step)
  {
    match step
    case Tick(to) => forall h :: h in w.holds ==> to <= w.holds[h].since + x.staleAfter
    case Claim(_, _, reference) => w.clock <= reference + x.staleAfter
    case _ => true
  }

  ghost predicate AllPrompt(x: Rules, w: World, steps: seq<Step>)
    requires Legal(x, w, steps)
    decreases |steps|
  {
    steps == [] || (Prompt(x, w, steps[0]) && AllPrompt(x, Next(x, w, steps[0]), steps[1..]))
  }

  ghost predicate NobodyLate(x: Rules, w: World)
  {
    w.overdue == map[] && forall h :: h in w.holds ==> !PastDue(x, w, w.holds[h])
  }

  lemma {:induction false} PromptIsNeverLate(x: Rules, w: World, steps: seq<Step>)
    requires NobodyLate(x, w) && Legal(x, w, steps) && AllPrompt(x, w, steps)
    ensures NobodyLate(x, After(x, w, steps))
    decreases |steps|
  {
    if steps != [] {
      PromptStep(x, w, steps[0]);
      hide Enabled, Next, Prompt, NobodyLate;
      PromptIsNeverLate(x, Next(x, w, steps[0]), steps[1..]);
    }
  }

  lemma PromptStep(x: Rules, w: World, step: Step)
    requires NobodyLate(x, w) && Enabled(x, w, step) && Prompt(x, w, step)
    ensures NobodyLate(x, Next(x, w, step))
  {
    hide Eligible, SettledRegistry;
  }

  /** If every live claim is settled within `staleAfter`, no artifact is held twice and none exceeds `max_attempts` failures. */
  lemma PromptWorkersStayBounded(x: Rules, clock: int, registry: Registry, steps: seq<Step>, id: string)
    requires AttemptsBounded(registry, x.maxAttempts) && x.maxAttempts >= 0
    requires Legal(x, Start(clock, registry), steps) && AllPrompt(x, Start(clock, registry), steps)
    requires id in After(x, Start(clock, registry), steps).registry.artifacts
    ensures var w := After(x, Start(clock, registry), steps);
      w.registry.artifacts[id].attempts + |Holders(w, id)| <= x.maxAttempts && |Holders(w, id)| <= 1
  {
    StartCounted(x, clock, registry);
    RunKeeps(x, Start(clock, registry), steps);
    PromptIsNeverLate(x, Start(clock, registry), steps);
    hide After, Legal, AllPrompt, HoldsKnown;
    var w := After(x, Start(clock, registry), steps);
    assert Late(x, w, id) == {};
    HoldersSplit(x, w, id);
    assert Counted(x, w, id);
  }

  // ---- the bound is reached ----

  lemma {:induction false} Join(x: Rules, w: World, first: seq<Step>, rest: seq<Step>)
    requires Legal(x, w, first) && Legal(x, After(x, w, first), rest)
    ensures Legal(x, w, first + rest) && After(x, w, first + rest) == After(x, After(x, w, first), rest)
    decreases |first|
  {
    hide Enabled, Next;
    if first == [] {
      assert first + rest == rest;
    } else {
      assert (first + rest)[1..] == first[1..] + rest;
      Join(x, Next(x, w, first[0]), first[1..], rest);
    }
  }

  lemma OneStep(x: Rules, w: World, step: Step)
    requires Enabled(x, w, step)
    ensures Legal(x, w, [step]) && After(x, w, [step]) == Next(x, w, step)
  {
    hide Enabled, Next;
    assert [step][1..] == [];
  }

  lemma Extend(x: Rules, w: World, steps: seq<Step>, step: Step)
    requires Legal(x, w, steps) && Enabled(x, After(x, w, steps), step)
    ensures Legal(x, w, steps + [step]) && After(x, w, steps + [step]) == Next(x, After(x, w, steps), step)
  {
    hide Enabled, Next, Legal, After;
    OneStep(x, After(x, w, steps), step);
    Join(x, w, steps, [step]);
  }

  /** When the i-th of a row of workers claims: each just after the claim before it went stale. */
  function ClaimTime(x: Rules, first: int, i: nat): int
  {
    if i == 0 then first else ClaimTime(x, first, i - 1) + x.staleAfter + 1
  }

  /** k workers, numbered from 0, claim one artifact one after another, and all are still at work. */
  function Pile(x: Rules, id: string, first: int, k: nat): seq<Step>
  {
    if k == 0 then []
    else Pile(x, id, first, k - 1) + [Tick(ClaimTime(x, first, k - 1))] + [Claim(k - 1, id, ClaimTime(x, first, k - 1))]
  }

  /** The first k of them fail, in order. */
  function Failures(error: string, at: int, k: nat): seq<Step>
  {
    if k == 0 then [] else Failures(error, at, k - 1) + [Settle(k - 1, Some(error), at)]
  }

  /** An artifact one attempt short of the limit, expired and unclaimed. */
  predicate AlmostUsedUp(x: Rules, a: Artifact, first: int)
  {
    Eligible(a, first, x.staleAfter, Some(x.maxAttempts)) && a.attempts == x.maxAttempts - 1 && a.claimedAt.None?
  }

  function Only(a: Artifact): Registry
  {
    Registry([a.id], map[a.id := a])
  }

  function Piled(x: Rules, a: Artifact, first: int, k: nat): World
    requires k >= 1
  {
    var now := ClaimTime(x, first, k - 1);
    World(now, Only(a.(claimedAt := Some(now))), map h: HoldId | 0 <= h < k :: Hold(a.id, a.workspace, ClaimTime(x, first, h)), map[])
  }

  lemma {:induction false} PileUp(x: Rules, a: Artifact, first: int, k: nat)
    requires k >= 1 && x.staleAfter >= 0 && AlmostUsedUp(x, a, first)
    ensures Legal(x, Start(first, Only(a)), Pile(x, a.id, first, k))
    ensures After(x, Start(first, Only(a)), Pile(x, a.id, first, k)) == Piled(x, a, first, k)
    ensures first <= ClaimTime(x, first, k - 1)
  {
    var w, now := Start(first, Only(a)), ClaimTime(x, first, k - 1);
    var tick, claim := Tick(now), Claim(k - 1, a.id, now);
    if k == 1 {
      assert Pile(x, a.id, first, 0) == [];
      OneStep(x, w, tick);
      Extend(x, w, [tick], claim);
      assert [] + [tick] + [claim] == [tick] + [claim];
      assert Next(x, Next(x, w, tick), claim) == Piled(x, a, first, 1);
    } else {
      PileUp(x, a, first, k - 1);
      var front, before := Pile(x, a.id, first, k - 1), Piled(x, a, first, k - 1);
      Extend(x, w, front, tick);
      assert Enabled(x, Next(x, before, tick), claim);
      Extend(x, w, front + [tick], claim);
      assert Next(x, Next(x, before, tick), claim) == Piled(x, a, first, k);
    }
  }

  lemma {:induction false} TimesRise(x: Rules, first: int, i: nat, j: nat)
    requires x.staleAfter >= 0 && i < j
    ensures ClaimTime(x, first, i) + x.staleAfter < ClaimTime(x, first, j)
    decreases j
  {
    if i < j - 1 {
      TimesRise(x, first, i, j - 1);
    }
  }

  lemma {:induction false} FailOneByOne(x: Rules, a: Artifact, first: int, k: nat, j: nat, error: string, at: int)
    requires k >= 1 && j <= k && x.staleAfter >= 0 && AlmostUsedUp(x, a, first)
    ensures var w := Piled(x, a, first, k);
      && Legal(x, w, Failures(error, at, j))
      && var w' := After(x, w, Failures(error, at, j));
         && w'.clock == w.clock && w'.holds == (map h: HoldId | j <= h < k :: Hold(a.id, a.workspace, ClaimTime(x, first, h)))
         && a.id in w'.registry.artifacts && w'.registry.artifacts[a.id].workspace == a.workspace
         && w'.registry.artifacts[a.id].attempts == a.attempts + j
         && OverdueOf(w', a.id) == if j < k then j else k - 1
  {
    if j > 0 {
      var w := Piled(x, a, first, k);
      FailOneByOne(x, a, first, k, j - 1, error, at);
      Extend(x, w, Failures(error, at, j - 1), Settle(j - 1, Some(error), at));
      if j - 1 < k - 1 {
        TimesRise(x, first, j - 1, k - 1);
      }
    }
  }

  /**
   And the bound is reached, for every k: k workers who each claim one artifact after the claim
   before went stale, and then all fail, leave it with k - 1 failures more than `max_attempts`.
   */
  lemma LateWorkersOverstep(x: Rules, a: Artifact, first: int, k: nat, error: string, at: int)
    requires k >= 1 && x.staleAfter >= 0 && AlmostUsedUp(x, a, first)
    ensures var w, steps := Start(first, Only(a)), Pile(x, a.id, first, k) + Failures(error, at, k);
      && Legal(x, w, steps)
      && var w' := After(x, w, steps);
         && a.id in w'.registry.artifacts && w'.registry.artifacts[a.id].attempts == x.maxAttempts + (k - 1)
         && OverdueOf(w', a.id) == k - 1 && w'.holds == map[]
  {
    PileUp(x, a, first, k);
    FailOneByOne(x, a, first, k, k, error, at);
    hide Legal, After, Piled, AlmostUsedUp;
    Join(x, Start(first, Only(a)), Pile(x, a.id, first, k), Failures(error, at, k));
  }
}
