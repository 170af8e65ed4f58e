/** A worker's sweep, as the protocol's steps: all its claims at one moment, then its settlements one by one. */
module RetentionRefinement {
  import opened Common
  import opened Artifacts
  import opened RetentionProtocol

  function HoldNumber(h: HoldId, i: nat): HoldId
  {
    h + i
  }

  function ClaimSteps(batch: seq<Artifact>, h: HoldId, now: int): seq<Step>
  {
    if batch == [] then []
    else
      var n := |batch| - 1;
      ClaimSteps(batch[..n], h, now) + [Claim(HoldNumber(h, n), batch[n].id, now)]
  }

  function HoldsOf(batch: seq<Artifact>, h: HoldId, now: int): (holds: map<HoldId, Hold>)
    ensures forall k :: k in holds ==> h <= k < h + |batch|
  {
    if batch == [] then map[]
    else
      var n := |batch| - 1;
      HoldsOf(batch[..n], h, now)[HoldNumber(h, n) := Hold(batch[n].id, batch[n].workspace, now)]
  }

  ghost predicate FreshFrom(w: World, h: HoldId)
  {
    forall k :: k in w.holds ==> k < h
  }

  function AfterClaims(w: World, batch: seq<Artifact>, h: HoldId, now: int): World
  {
    w.(registry := Registry(w.registry.order, WithClaims(w.registry.artifacts, batch, now)), holds := w.holds + HoldsOf(batch, h, now))
  }

  lemma ClaimMore(x: Rules, w: World, batch: seq<Artifact>, h: HoldId, now: int)
    requires batch != [] && FreshFrom(w, h) && now <= w.clock
    requires TakenFrom(w.registry, batch, now, x.staleAfter, Some(x.maxAttempts))
    ensures var n := |batch| - 1;
      var w' := AfterClaims(w, batch[..n], h, now);
      && Enabled(x, w', Claim(HoldNumber(h, n), batch[n].id, now))
      && Next(x, w', Claim(HoldNumber(h, n), batch[n].id, now)) == AfterClaims(w, batch, h, now)
  {
    var n := |batch| - 1;
    WithClaimsMeaning(w.registry.artifacts, batch[..n], now);
    assert NotAmong(batch[..n], batch[n].id);
    assert Eligible(batch[n], now, x.staleAfter, Some(x.maxAttempts));
    var claimed := WithClaims(w.registry.artifacts, batch[..n], now);
    assert claimed[batch[n].id] == batch[n];
    assert WithClaims(w.registry.artifacts, batch, now) == claimed[batch[n].id := batch[n].(claimedAt := Some(now))];
    hide Eligible, WithClaims, TakenFrom, ClaimsExactly;
    var held, hold := HoldsOf(batch[..n], h, now), Hold(batch[n].id, batch[n].workspace, now);
    assert (w.holds + held)[HoldNumber(h, n) := hold] == w.holds + held[HoldNumber(h, n) := hold];
  }

  /** The claims of a batch, one by one, amount to the store's one call. */
  lemma {:induction false} ClaimsRun(x: Rules, w: World, batch: seq<Artifact>, h: HoldId, now: int)
    requires FreshFrom(w, h) && now <= w.clock
    requires TakenFrom(w.registry, batch, now, x.staleAfter, Some(x.maxAttempts))
    ensures Legal(x, w, ClaimSteps(batch, h, now)) && After(x, w, ClaimSteps(batch, h, now)) == AfterClaims(w, batch, h, now)
  {
    if batch == [] {
      assert w.holds + HoldsOf(batch, h, now) == w.holds;
    } else {
      var n := |batch| - 1;
      assert TakenFrom(w.registry, batch[..n], now, x.staleAfter, Some(x.maxAttempts)) by { hide Eligible; }
      hide TakenFrom, Enabled, Next, Legal, After, AfterClaims, FreshFrom;
      ClaimsRun(x, w, batch[..n], h, now);
      ClaimMore(x, w, batch, h, now);
      Extend(x, w, ClaimSteps(batch[..n], h, now), Claim(HoldNumber(h, n), batch[n].id, now));
    }
  }

  function SettleSteps(claimed: seq<Artifact>, discards: Discards, h: HoldId, now: int): seq<Step>
    decreases |claimed|
  {
    if claimed == [] then []
    else [Settle(h, discards(claimed[0].relativePath), now)] + SettleSteps(claimed[1..], discards, h + 1, now)
  }

  predicate HeldAt(w: World, claimed: seq<Artifact>, h: HoldId, i: nat)
    requires i < |claimed|
  {
    var k := HoldNumber(h, i);
    k in w.holds && w.holds[k].id == claimed[i].id && w.holds[k].workspace == claimed[i].workspace
  }

  ghost predicate Holding(w: World, claimed: seq<Artifact>, h: HoldId)
  {
    forall i :: 0 <= i < |claimed| ==> HeldAt(w, claimed, h, i)
  }

  lemma HoldingRest(w: World, w': World, claimed: seq<Artifact>, h: HoldId)
    requires claimed != [] && Holding(w, claimed, h) && w'.holds == w.holds - {h}
    ensures Holding(w', claimed[1..], h + 1)
  {
    var rest, next := claimed[1..], HoldNumber(h, 1);
    forall i | 0 <= i < |rest|
      ensures HeldAt(w', rest, next, i)
    {
      assert HeldAt(w, claimed, h, i + 1);
    }
  }

  /** Settling a batch, one by one, is what the worker's loop does to the registry, and releases every hold. */
  lemma {:induction false} SettlesRun(x: Rules, w: World, claimed: seq<Artifact>, discards: Discards, h: HoldId, now: int)
    requires Holding(w, claimed, h)
    ensures Legal(x, w, SettleSteps(claimed, discards, h, now))
    ensures var w' := After(x, w, SettleSteps(claimed, discards, h, now));
      && w'.registry == Processed(w.registry, claimed, discards, now) && w'.clock == w.clock
      && w'.holds == map k | k in w.holds && !(h <= k < h + |claimed|) :: w.holds[k]
    decreases |claimed|
  {
    if claimed == [] {
      assert w.holds == map k | k in w.holds && !(h <= k < h) :: w.holds[k];
    } else {
      var step := Settle(h, discards(claimed[0].relativePath), now);
      assert HeldAt(w, claimed, h, 0);
      var w1 := Next(x, w, step);
      HoldingRest(w, w1, claimed, h);
      SettlesRun(x, w1, claimed[1..], discards, h + 1, now);
      assert w1.registry == AfterDeleteOne(w.registry, claimed[0], discards, now);
      var rest := SettleSteps(claimed[1..], discards, h + 1, now);
      assert ([step] + rest)[1..] == rest;
      hide Next, Holding, Processed, SettledRegistry;
    }
  }

  /**
   A sweep as `RetentionWorker.RunOnce` performs it is a run of the protocol by one worker, ending with
   the same registry and no hold left.
   */
  lemma SweepRefines(x: Rules, w: World, h: HoldId, now: int, limit: nat, discards: Discards)
    requires Valid(w.registry) && FreshFrom(w, h) && now <= w.clock
    ensures var batch := Batch(w.registry, now, x.staleAfter, limit, Some(x.maxAttempts));
      var steps := ClaimSteps(batch, h, now) + SettleSteps(ClaimedBatch(batch, now), discards, h, now);
      && Legal(x, w, steps)
      && var w' := After(x, w, steps);
         w'.registry == Swept(w.registry, now, x.staleAfter, limit, x.maxAttempts, discards) && w'.holds == w.holds && w'.clock == w.clock
  {
    BatchIsEarliest(w.registry, now, x.staleAfter, limit, Some(x.maxAttempts));
    var batch := Batch(w.registry, now, x.staleAfter, limit, Some(x.maxAttempts));
    var claimed := ClaimedBatch(batch, now);
    hide Batch, TakenFrom, Ascending, Eligible, Valid;
    var w1 := AfterClaims(w, batch, h, now);
    BatchHeld(w, batch, h, now);
    hide Processed, WithClaims, HoldsOf, Holding, SettleSteps, ClaimSteps;
    ClaimsRun(x, w, batch, h, now);
    SettlesRun(x, w1, claimed, discards, h, now);
    Join(x, w, ClaimSteps(batch, h, now), SettleSteps(claimed, discards, h, now));
  }

  lemma {:induction false} HoldsAt(batch: seq<Artifact>, h: HoldId, now: int, i: nat)
    requires i < |batch|
    ensures HoldNumber(h, i) in HoldsOf(batch, h, now)
    ensures HoldsOf(batch, h, now)[HoldNumber(h, i)] == Hold(batch[i].id, batch[i].workspace, now)
  {
    if i < |batch| - 1 {
      HoldsAt(batch[..|batch| - 1], h, now, i);
    }
  }

  lemma BatchHeld(w: World, batch: seq<Artifact>, h: HoldId, now: int)
    requires FreshFrom(w, h)
    ensures var w1 := AfterClaims(w, batch, h, now);
      && Holding(w1, ClaimedBatch(batch, now), h)
      && (map k | k in w1.holds && !(h <= k < h + |batch|) :: w1.holds[k]) == w.holds
  {
    var w1 := AfterClaims(w, batch, h, now);
    forall i | 0 <= i < |batch|
      ensures HeldAt(w1, ClaimedBatch(batch, now), h, i)
    {
      HoldsAt(batch, h, now, i);
    }
    hide HoldsOf, WithClaims;
  }
}
