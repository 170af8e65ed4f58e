/**
 What retention may touch and what it must: nothing before it expires, and everything expired that is
 there for the taking (backend/app/artifacts/store.py:235-269, backend/app/artifacts/retention.py:49-78).
 */
module RetentionExpiry {
  import opened Common
  import opened Artifacts
  import RetentionProtocol

  /** The artifact is kept for ever, or past this moment. */
  predicate KeptPast(a: Artifact, moment: int)
  {
    a.expiresAt.None? || moment < a.expiresAt.value
  }

  /** Every artifact claimed has expired, is ready, is on no hold, has an attempt left, and is claimed by nobody whose claim is fresh. */
  lemma ClaimedHasExpired(r: Registry, now: int, staleAfter: int, limit: nat, maxAttempts: int, i: nat)
    requires Valid(r) && i < |Batch(r, now, staleAfter, limit, Some(maxAttempts))|
    ensures var a := Batch(r, now, staleAfter, limit, Some(maxAttempts))[i];
      && a.expiresAt.Some? && a.expiresAt.value <= now
      && a.status == Ready && a.policy == Standard && a.attempts < maxAttempts
      && (a.claimedAt.Some? ==> now - a.claimedAt.value > staleAfter)
  {
    BatchIsEarliest(r, now, staleAfter, limit, Some(maxAttempts));
    hide Batch;
  }

  // ---- nothing before its time ----

  lemma SweepSpares(r: Registry, now: int, staleAfter: int, limit: nat, maxAttempts: int, discards: Discards, id: string)
    requires Valid(r) && id in r.artifacts && KeptPast(r.artifacts[id], now)
    ensures var r' := Swept(r, now, staleAfter, limit, maxAttempts, discards); id in r'.artifacts && r'.artifacts[id] == r.artifacts[id]
  {
    var batch := Batch(r, now, staleAfter, limit, Some(maxAttempts));
    SweptMeaning(r, now, staleAfter, limit, maxAttempts, discards);
    BatchIsEarliest(r, now, staleAfter, limit, Some(maxAttempts));
    forall i | 0 <= i < |batch|
      ensures batch[i].id != id
    {
      ClaimedHasExpired(r, now, staleAfter, limit, maxAttempts, i);
    }
    hide Swept, Batch, Eligible;
    assert NotAmong(batch, id);
  }

  predicate KeptPastAll(a: Artifact, rounds: seq<Round>)
  {
    forall i :: 0 <= i < |rounds| ==> KeptPast(a, rounds[i].now)
  }

  /** Over any sweeps, an artifact that expires after all of them, or never, is exactly as it was. */
  lemma {:induction false} RoundsSpare(r: Registry, rounds: seq<Round>, maxAttempts: int, id: string)
    requires Valid(r) && id in r.artifacts && KeptPastAll(r.artifacts[id], rounds)
    ensures var r' := AfterRounds(r, rounds, maxAttempts); id in r'.artifacts && r'.artifacts[id] == r.artifacts[id]
    decreases |rounds|
  {
    hide Swept, Valid, KeptPast;
    if rounds != [] {
      var round := rounds[0];
      SweepSpares(r, round.now, round.staleAfter, round.limit, maxAttempts, round.discards, id);
      assert forall i :: 0 <= i < |rounds[1..]| ==> rounds[1..][i] == rounds[i + 1];
      RoundsSpare(AfterRound(r, round, maxAttempts), rounds[1..], maxAttempts, id);
    }
  }

  /** The claims of this artifact in these steps were all made for moments before it expires. */
  predicate ClaimsTooEarly(steps: seq<RetentionProtocol.Step>, a: Artifact)
  {
    forall i :: 0 <= i < |steps| && steps[i].Claim? && steps[i].id == a.id ==> KeptPast(a, steps[i].reference)
  }

  ghost predicate Unheld(w: RetentionProtocol.World, id: string)
  {
    forall h :: h in w.holds ==> w.holds[h].id != id
  }

  lemma StepSpares(x: RetentionProtocol.Rules, w: RetentionProtocol.World, step: RetentionProtocol.Step, id: string)
    requires RetentionProtocol.Enabled(x, w, step) && Unheld(w, id) && id in w.registry.artifacts
    requires step.Claim? && step.id == id ==> KeptPast(w.registry.artifacts[id], step.reference)
    ensures var w' := RetentionProtocol.Next(x, w, step);
      Unheld(w', id) && id in w'.registry.artifacts && w'.registry.artifacts[id] == w.registry.artifacts[id]
  {
  }

  /**
   However workers interleave, crash and come late: an artifact nobody holds, and that no worker asks
   for at a moment at which it has expired, is exactly as it was, and still nobody holds it.
   */
  lemma {:induction false} RunSpares(x: RetentionProtocol.Rules, w: RetentionProtocol.World, steps: seq<RetentionProtocol.Step>, id: string)
    requires RetentionProtocol.Legal(x, w, steps) && Unheld(w, id) && id in w.registry.artifacts
    requires w.registry.artifacts[id].id == id && ClaimsTooEarly(steps, w.registry.artifacts[id])
    ensures var w' := RetentionProtocol.After(x, w, steps);
      Unheld(w', id) && id in w'.registry.artifacts && w'.registry.artifacts[id] == w.registry.artifacts[id]
    decreases |steps|
  {
    hide RetentionProtocol.Enabled, RetentionProtocol.Next, KeptPast, Unheld;
    if steps != [] {
      StepSpares(x, w, steps[0], id);
      assert forall i :: 0 <= i < |steps[1..]| ==> steps[1..][i] == steps[i + 1];
      RunSpares(x, RetentionProtocol.Next(x, w, steps[0]), steps[1..], id);
    }
  }

  /** So no claim of it can have been made at all: a claim of an artifact that has not expired is not enabled. */
  lemma NotClaimableEarly(x: RetentionProtocol.Rules, w: RetentionProtocol.World, h: RetentionProtocol.HoldId, id: string, reference: int)
    requires RetentionProtocol.Enabled(x, w, RetentionProtocol.Claim(h, id, reference))
    ensures !KeptPast(w.registry.artifacts[id], reference)
  {
  }

  // ---- everything in its time ----

  /** Expired by now, ready, on no hold, claimed by nobody or staler than the limit, and with an attempt left. */
  predicate ThereForTheTaking(a: Artifact, now: int, staleAfter: int, maxAttempts: int)
  {
    && a.status == Ready && a.policy == Standard && a.attempts < maxAttempts
    && a.expiresAt.Some? && a.expiresAt.value <= now
    && (a.claimedAt.Some? ==> a.claimedAt.value + staleAfter < now)
  }

  /** A sweep that may take as many as the registry holds takes every such artifact: it is deleted if its file could be discarded, and has one more failure otherwise. */
  lemma SweepTakes(r: Registry, now: int, staleAfter: int, limit: nat, maxAttempts: int, discards: Discards, id: string)
    requires Valid(r) && id in r.artifacts && |r.order| <= limit
    requires ThereForTheTaking(r.artifacts[id], now, staleAfter, maxAttempts)
    ensures var a, r' := r.artifacts[id], Swept(r, now, staleAfter, limit, maxAttempts, discards);
      id in r'.artifacts && r'.artifacts[id] ==
        match discards(a.relativePath)
        case None => a.(status := Deleted, deletedAt := Some(now), claimedAt := None)
        case Some(error) => a.(attempts := a.attempts + 1, error := Some(error), claimedAt := None)
  {
    var batch := Batch(r, now, staleAfter, limit, Some(maxAttempts));
    SweptMeaning(r, now, staleAfter, limit, maxAttempts, discards);
    BatchIsEarliest(r, now, staleAfter, limit, Some(maxAttempts));
    assert Eligible(r.artifacts[id], now, staleAfter, Some(maxAttempts));
    if NotAmong(batch, id) {
      FullBatch(r, batch, id);
    }
    hide Swept, Batch, Eligible;
  }

  /** A batch that leaves a registered artifact out is shorter than the registry. */
  lemma FullBatch(r: Registry, batch: seq<Artifact>, id: string)
    requires Valid(r) && DistinctIds(batch) && NotAmong(batch, id) && id in r.artifacts
    requires forall i :: 0 <= i < |batch| ==> batch[i].id in r.artifacts
    ensures |batch| < |r.order|
  {
    var named := set i | 0 <= i < |batch| :: batch[i].id;
    NamedCount(batch);
    OrderCount(r.order);
    var listed := set i | 0 <= i < |r.order| :: r.order[i];
    assert named <= listed - {id} && id in listed by {
      assert id in r.order;
    }
    SubsetCount(named, listed - {id});
  }

  lemma {:induction false} NamedCount(batch: seq<Artifact>)
    requires DistinctIds(batch)
    ensures |set i | 0 <= i < |batch| :: batch[i].id| == |batch|
  {
    if batch != [] {
      var n := |batch| - 1;
      NamedCount(batch[..n]);
      assert forall i :: 0 <= i < n ==> batch[..n][i] == batch[i];
      assert (set i | 0 <= i < |batch| :: batch[i].id) == (set i | 0 <= i < n :: batch[..n][i].id) + {batch[n].id};
    }
  }

  lemma {:induction false} OrderCount(order: seq<string>)
    requires Distinct(order)
    ensures |set i | 0 <= i < |order| :: order[i]| == |order|
  {
    if order != [] {
      var n := |order| - 1;
      OrderCount(order[..n]);
      assert forall i :: 0 <= i < n ==> order[..n][i] == order[i];
      assert (set i | 0 <= i < |order| :: order[i]) == (set i | 0 <= i < n :: order[..n][i]) + {order[n]};
    }
  }

  lemma {:induction false} SubsetCount(a: set<string>, b: set<string>)
    requires a <= b
    ensures |a| <= |b|
  {
    if a != {} {
      var x :| x in a;
      SubsetCount(a - {x}, b - {x});
    }
  }

  /** A batch is taken in the order of expiry, and whatever else is there for the taking expires no earlier than any artifact taken. */
  lemma BatchExpiresFirst(r: Registry, now: int, staleAfter: int, limit: nat, maxAttempts: int, id: string)
    requires Valid(r) && id in r.artifacts
    ensures var batch := Batch(r, now, staleAfter, limit, Some(maxAttempts));
      && |batch| <= limit
      && (forall i, j :: 0 <= i < j < |batch| ==>
          batch[i].expiresAt.Some? && batch[j].expiresAt.Some? && batch[i].expiresAt.value <= batch[j].expiresAt.value)
      && (ThereForTheTaking(r.artifacts[id], now, staleAfter, maxAttempts) && (forall i :: 0 <= i < |batch| ==> batch[i].id != id) ==>
          && |batch| == limit
          && forall i :: 0 <= i < |batch| ==>
               batch[i].expiresAt.Some? && batch[i].expiresAt.value <= r.artifacts[id].expiresAt.value)
  {
    var batch := Batch(r, now, staleAfter, limit, Some(maxAttempts));
    BatchIsEarliest(r, now, staleAfter, limit, Some(maxAttempts));
    forall i | 0 <= i < |batch|
      ensures batch[i].expiresAt.Some? && Expiry(batch[i]) == batch[i].expiresAt.value
    {
      ClaimedHasExpired(r, now, staleAfter, limit, maxAttempts, i);
    }
    hide Batch;
    if ThereForTheTaking(r.artifacts[id], now, staleAfter, maxAttempts) && forall i :: 0 <= i < |batch| ==> batch[i].id != id {
      assert Eligible(r.artifacts[id], now, staleAfter, Some(maxAttempts)) && NotAmong(batch, id);
    }
  }
}
