/** How often an artifact can be claimed, by workers that crash or come late (backend/app/artifacts/retention.py:49-78). */
module RetentionClaims {
  import opened Common
  import opened Artifacts
  import opened RetentionProtocol

  /** What has happened to one artifact's claims: made, given up by a crash, and settled within `staleAfter`. */
  datatype Tally = Tally(claims: nat, crashes: nat, inTime: nat)

  function Tallied(x: Rules, w: World, step: Step, id: string, t: Tally): Tally
    requires Enabled(x, w, step)
  {
    if About(w, step) != Some(id) then t
    else
      match step
      case Claim(_, _, _) => t.(claims := t.claims + 1)
      case Crash(_) => t.(crashes := t.crashes + 1)
      case Settle(h, _, _) => if PastDue(x, w, w.holds[h]) then t else t.(inTime := t.inTime + 1)
      case _ => t
  }

  /** The tally of a whole run, on top of one taken before it. */
  function TallyOf(x: Rules, w: World, steps: seq<Step>, id: string, t: Tally): Tally
    requires Legal(x, w, steps)
    decreases |steps|
  {
    if steps == [] then t else TallyOf(x, Next(x, w, steps[0]), steps[1..], id, Tallied(x, w, steps[0], id, t))
  }

  const NONE: Tally := Tally(0, 0, 0)

  /** The failures an artifact starts with. */
  function AttemptsAt(r: Registry, id: string): int
  {
    if id in r.artifacts then r.artifacts[id].attempts else 0
  }

  /** The attempts an artifact that starts with these failures has left. */
  function LeftFrom(x: Rules, attempts: int): nat
  {
    if attempts < x.maxAttempts then x.maxAttempts - attempts else 0
  }

  /** Every claim is settled, crashed or still held. */
  predicate Balanced(w: World, id: string, t: Tally)
  {
    t.claims == t.inTime + OverdueOf(w, id) + t.crashes + |Holders(w, id)|
  }

  /** While an artifact is there to be deleted, its failures are the settlements so far; and those in time never exceed the attempts it had. */
  predicate Spent(x: Rules, w: World, id: string, start: int, t: Tally)
  {
    && t.inTime + |OnTime(x, w, id)| <= LeftFrom(x, start)
    && (id !in w.registry.artifacts ==> start == 0 && t.inTime == 0)
    && (id in w.registry.artifacts && w.registry.artifacts[id].status == Ready ==>
        w.registry.artifacts[id].attempts == start + t.inTime + OverdueOf(w, id))
  }

  lemma OtherBalanced(x: Rules, w: World, step: Step, id: string, t: Tally)
    requires Enabled(x, w, step) && About(w, step) != Some(id) && Balanced(w, id, t)
    ensures Balanced(Next(x, w, step), id, t)
  {
    hide Eligible, SettledRegistry, PastDue;
    assert Holders(Next(x, w, step), id) == Holders(w, id);
  }

  lemma GoneBalanced(w: World, w': World, h: HoldId)
    requires h in w.holds && w'.holds == w.holds - {h}
    ensures |Holders(w', w.holds[h].id)| == |Holders(w, w.holds[h].id)| - 1
  {
    var id := w.holds[h].id;
    assert h in Holders(w, id);
    assert Holders(w', id) == Holders(w, id) - {h};
  }

  lemma ClaimBalanced(x: Rules, w: World, h: HoldId, id: string, reference: int)
    requires Enabled(x, w, Claim(h, id, reference))
    ensures |Holders(Next(x, w, Claim(h, id, reference)), id)| == |Holders(w, id)| + 1
  {
    hide Eligible;
    assert Holders(Next(x, w, Claim(h, id, reference)), id) == Holders(w, id) + {h};
  }

  lemma BalanceKept(x: Rules, w: World, step: Step, id: string, t: Tally)
    requires Enabled(x, w, step) && Balanced(w, id, t)
    ensures Balanced(Next(x, w, step), id, Tallied(x, w, step, id, t))
  {
    hide Eligible, SettledRegistry, PastDue, Holders;
    if About(w, step) != Some(id) {
      hide Balanced;
      OtherBalanced(x, w, step, id, t);
    } else {
      match step
      case Claim(h, _, reference) => ClaimBalanced(x, w, h, id, reference);
      case Settle(h, _, _) => GoneBalanced(w, Next(x, w, step), h);
      case Crash(h) => GoneBalanced(w, Next(x, w, step), h);
      case Register(_) => SameHolders(w, Next(x, w, step), id);
    }
  }

  lemma SameHolders(w: World, w': World, id: string)
    requires w'.holds == w.holds
    ensures Holders(w', id) == Holders(w, id)
  {
  }

  lemma OtherSpent(x: Rules, w: World, step: Step, id: string, start: int, t: Tally)
    requires Enabled(x, w, step) && !step.Tick? && About(w, step) != Some(id) && Spent(x, w, id, start, t)
    ensures Spent(x, Next(x, w, step), id, start, t)
  {
    hide Eligible;
    var w' := Next(x, w, step);
    assert OnTime(x, w', id) == OnTime(x, w, id);
    assert id in w.registry.artifacts <==> id in w'.registry.artifacts;
    assert id in w.registry.artifacts ==> w'.registry.artifacts[id] == w.registry.artifacts[id];
  }

  lemma TickSpent(x: Rules, w: World, to: int, id: string, start: int, t: Tally)
    requires w.clock <= to && Spent(x, w, id, start, t)
    ensures Spent(x, w.(clock := to), id, start, t)
  {
    assert OnTime(x, w.(clock := to), id) <= OnTime(x, w, id);
    SmallerSubset(OnTime(x, w.(clock := to), id), OnTime(x, w, id));
  }

  /** A claim finds an attempt left over: whoever else is in time came in for a claim that was settled late. */
  lemma ClaimSpent(x: Rules, w: World, h: HoldId, id: string, reference: int, start: int, t: Tally)
    requires Counted(x, w, id) && Enabled(x, w, Claim(h, id, reference)) && Spent(x, w, id, start, t)
    ensures Spent(x, Next(x, w, Claim(h, id, reference)), id, start, t)
  {
    var w' := Next(x, w, Claim(h, id, reference));
    assert !Owned(x, w, id);
    if PastDue(x, w', w'.holds[h]) {
      assert OnTime(x, w', id) == OnTime(x, w, id);
    } else {
      assert OnTime(x, w', id) == OnTime(x, w, id) + {h};
    }
  }

  lemma SettleSpent(x: Rules, w: World, h: HoldId, error: Option<string>, at: int, start: int, t: Tally)
    requires h in w.holds && HoldsKnown(w) && Spent(x, w, w.holds[h].id, start, t)
    ensures Spent(x, Next(x, w, Settle(h, error, at)), w.holds[h].id, start, Tallied(x, w, Settle(h, error, at), w.holds[h].id, t))
  {
    var hold, w' := w.holds[h], Next(x, w, Settle(h, error, at));
    if PastDue(x, w, hold) {
      assert OnTime(x, w', hold.id) == OnTime(x, w, hold.id);
    } else {
      assert h in OnTime(x, w, hold.id);
      assert OnTime(x, w', hold.id) == OnTime(x, w, hold.id) - {h};
    }
  }

  lemma CrashSpent(x: Rules, w: World, h: HoldId, start: int, t: Tally)
    requires h in w.holds && Spent(x, w, w.holds[h].id, start, t)
    ensures Spent(x, Next(x, w, Crash(h)), w.holds[h].id, start, t)
  {
    var w', id := Next(x, w, Crash(h)), w.holds[h].id;
    assert OnTime(x, w', id) <= OnTime(x, w, id);
    SmallerSubset(OnTime(x, w', id), OnTime(x, w, id));
  }

  lemma RegisterSpent(x: Rules, w: World, a: Artifact, start: int, t: Tally)
    requires HoldsKnown(w) && Enabled(x, w, Register(a)) && Spent(x, w, a.id, start, t)
    ensures Spent(x, Next(x, w, Register(a)), a.id, start, t)
  {
    assert OnTime(x, Next(x, w, Register(a)), a.id) == {};
  }

  lemma SpentKept(x: Rules, w: World, step: Step, id: string, start: int, t: Tally)
    requires Invariant(x, w) && Enabled(x, w, step) && Spent(x, w, id, start, t)
    ensures Spent(x, Next(x, w, step), id, start, Tallied(x, w, step, id, t))
  {
    assert Counted(x, w, id);
    hide Counted, Spent, AllCounted, Eligible, HoldsKnown;
    if step.Tick? {
      TickSpent(x, w, step.to, id, start, t);
    } else if About(w, step) != Some(id) {
      OtherSpent(x, w, step, id, start, t);
    } else {
      match step
      case Claim(h, _, reference) => ClaimSpent(x, w, h, id, reference, start, t);
      case Settle(h, error, at) => SettleSpent(x, w, h, error, at, start, t);
      case Crash(h) => CrashSpent(x, w, h, start, t);
      case Register(a) => RegisterSpent(x, w, a, start, t);
    }
  }

  lemma {:induction false} RunSpends(x: Rules, w: World, steps: seq<Step>, id: string, start: int, t: Tally)
    requires x.maxAttempts >= 0 && Invariant(x, w) && Legal(x, w, steps)
    requires Balanced(w, id, t) && Spent(x, w, id, start, t)
    ensures var w', t' := After(x, w, steps), TallyOf(x, w, steps, id, t); Balanced(w', id, t') && Spent(x, w', id, start, t')
    decreases |steps|
  {
    hide Enabled, Next, Tallied, Invariant, Balanced, Spent;
    if steps != [] {
      StepKeeps(x, w, steps[0]);
      BalanceKept(x, w, steps[0], id, t);
      SpentKept(x, w, steps[0], id, start, t);
      RunSpends(x, Next(x, w, steps[0]), steps[1..], id, start, Tallied(x, w, steps[0], id, t));
    }
  }

  /**
   However workers interleave, crash and come late, over any run: an artifact is claimed no more often
   than the attempts it had left, the claims given up by a crash, and the claims that ran past
   `staleAfter`, held still or settled.
   */
  lemma ClaimsWithinBudget(x: Rules, clock: int, registry: Registry, steps: seq<Step>, id: string)
    requires AttemptsBounded(registry, x.maxAttempts) && x.maxAttempts >= 0
    requires Legal(x, Start(clock, registry), steps)
    ensures var w, t := After(x, Start(clock, registry), steps), TallyOf(x, Start(clock, registry), steps, id, NONE);
      && t.claims == t.inTime + OverdueOf(w, id) + t.crashes + |Holders(w, id)|
      && t.claims <= LeftFrom(x, AttemptsAt(registry, id)) + t.crashes + OverdueOf(w, id) + |Late(x, w, id)|
  {
    var w := Start(clock, registry);
    StartCounted(x, clock, registry);
    assert OnTime(x, w, id) == {} && Holders(w, id) == {};
    RunSpends(x, w, steps, id, AttemptsAt(registry, id), NONE);
    hide After, Legal, TallyOf;
    HoldersSplit(x, After(x, w, steps), id);
  }

  /** If every live claim is settled within `staleAfter`, only crashes cost more claims than the attempts there were. */
  lemma PromptClaims(x: Rules, clock: int, registry: Registry, steps: seq<Step>, id: string)
    requires AttemptsBounded(registry, x.maxAttempts) && x.maxAttempts >= 0
    requires Legal(x, Start(clock, registry), steps) && AllPrompt(x, Start(clock, registry), steps)
    ensures var t := TallyOf(x, Start(clock, registry), steps, id, NONE);
      t.claims <= LeftFrom(x, AttemptsAt(registry, id)) + t.crashes
  {
    var w := Start(clock, registry);
    ClaimsWithinBudget(x, clock, registry, steps, id);
    PromptIsNeverLate(x, w, steps);
    hide After, Legal, AllPrompt, TallyOf;
    assert Late(x, After(x, w, steps), id) == {};
  }
}
