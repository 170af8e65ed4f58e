/**
 The registry of artifacts and the worker that deletes expired ones
 (backend/app/artifacts/store.py and backend/app/artifacts/retention.py).
 */
module Artifacts {
  import opened Common

  datatype Status = Pending | Ready | Failed | Deleted
  datatype RetentionPolicy = Standard | LegalHold | Permanent

  datatype Artifact = Artifact(
    id: string, workspace: string, relativePath: string, status: Status, policy: RetentionPolicy,
    expiresAt: Option<int>, claimedAt: Option<int>, attempts: nat, error: Option<string>, deletedAt: Option<int>)

  /** A dictionary that remembers the order of its keys. */
  datatype Registry = Registry(order: seq<string>, artifacts: map<string, Artifact>)

  ghost predicate Valid(r: Registry)
  {
    && Distinct(r.order)
    && (forall id :: id in r.order <==> id in r.artifacts)
    && (forall id :: id in r.artifacts ==> r.artifacts[id].id == id)
  }

  // ---- claiming ----

  predicate Eligible(a: Artifact, now: int, staleAfter: int, maxAttempts: Option<int>)
  {
    && a.status == Ready && a.policy == Standard
    && a.expiresAt.Some? && a.expiresAt.value <= now
    && (a.claimedAt.None? || a.claimedAt.value < now - staleAfter)
    && (maxAttempts.None? || a.attempts < maxAttempts.value)
  }

  function EligibleIn(r: Registry, order: seq<string>, now: int, staleAfter: int, maxAttempts: Option<int>): seq<Artifact>
    requires forall id :: id in order ==> id in r.artifacts
  {
    if order == [] then []
    else
      var front, id := EligibleIn(r, order[..|order| - 1], now, staleAfter, maxAttempts), order[|order| - 1];
      if Eligible(r.artifacts[id], now, staleAfter, maxAttempts) then front + [r.artifacts[id]] else front
  }

  function Expiry(a: Artifact): int
  {
    if a.expiresAt.Some? then a.expiresAt.value else 0
  }

  /** Insert after every element that expires no later. */
  function Insert(sorted: seq<Artifact>, a: Artifact): seq<Artifact>
  {
    if sorted == [] then [a]
    else
      var last := sorted[|sorted| - 1];
      if Expiry(last) <= Expiry(a) then sorted + [a] else Insert(sorted[..|sorted| - 1], a) + [last]
  }

  /** Python's stable sort by expiry. */
  function SortedByExpiry(s: seq<Artifact>): seq<Artifact>
  {
    if s == [] then [] else Insert(SortedByExpiry(s[..|s| - 1]), s[|s| - 1])
  }

  function Batch(r: Registry, now: int, staleAfter: int, limit: nat, maxAttempts: Option<int>): seq<Artifact>
    requires forall id :: id in r.order ==> id in r.artifacts
  {
    var eligible := SortedByExpiry(EligibleIn(r, r.order, now, staleAfter, maxAttempts));
    if |eligible| <= limit then eligible else eligible[..limit]
  }

  function WithClaims(artifacts: map<string, Artifact>, batch: seq<Artifact>, now: int): map<string, Artifact>
  {
    if batch == [] then artifacts
    else
      var last := batch[|batch| - 1];
      WithClaims(artifacts, batch[..|batch| - 1], now)[last.id := last.(claimedAt := Some(now))]
  }

  function ClaimedBatch(batch: seq<Artifact>, now: int): seq<Artifact>
  {
    seq(|batch|, i requires 0 <= i < |batch| => batch[i].(claimedAt := Some(now)))
  }

  // ---- recording what became of a claim ----

  function MarkedDeleted(r: Registry, workspace: string, id: string, at: int): Registry
  {
    if id !in r.artifacts || r.artifacts[id].workspace != workspace then r
    else r.(artifacts := r.artifacts[id := r.artifacts[id].(status := Deleted, deletedAt := Some(at), claimedAt := None)])
  }

  function FailureRecorded(r: Registry, workspace: string, id: string, error: string): Registry
  {
    if id !in r.artifacts || r.artifacts[id].workspace != workspace then r
    else
      var a := r.artifacts[id];
      r.(artifacts := r.artifacts[id := a.(attempts := a.attempts + 1, error := Some(error), claimedAt := None)])
  }

  class WorkspaceArtifactStore {
    var order: seq<string>
    var artifacts: map<string, Artifact>

    ghost function View(): Registry
      reads this
    {
      Registry(order, artifacts)
    }

    constructor ()
      ensures View() == Registry([], map[]) && Valid(View())
    {
      order, artifacts := [], map[];
    }

    /** A new row is PENDING; one that is already there is replaced in place. */
    method Record(artifact: Artifact)
      requires Valid(View())
      modifies this
      ensures Valid(View())
      ensures artifacts == old(artifacts)[artifact.id := artifact]
      ensures order == if artifact.id in old(artifacts) then old(order) else old(order) + [artifact.id]
    {
      if artifact.id !in artifacts {
        order := order + [artifact.id];
      }
      artifacts := artifacts[artifact.id := artifact];
    }

    method ClaimExpired(now: int, staleAfter: int, limit: nat, maxAttempts: Option<int>) returns (claimed: seq<Artifact>)
      requires Valid(View())
      modifies this
      ensures var batch := Batch(old(View()), now, staleAfter, limit, maxAttempts);
        && claimed == ClaimedBatch(batch, now)
        && View() == Registry(old(order), WithClaims(old(artifacts), batch, now))
    {
      var eligible := CollectEligible(now, staleAfter, maxAttempts);
      eligible := SortedByExpiry(eligible);
      var batch := if |eligible| <= limit then eligible else eligible[..limit];
      StampClaims(batch, now);
      claimed := ClaimedBatch(batch, now);
    }

    method CollectEligible(now: int, staleAfter: int, maxAttempts: Option<int>) returns (eligible: seq<Artifact>)
      requires forall id :: id in order ==> id in artifacts
      ensures eligible == EligibleIn(View(), order, now, staleAfter, maxAttempts)
    {
      eligible := [];
      for i := 0 to |order|
        invariant eligible == EligibleIn(View(), order[..i], now, staleAfter, maxAttempts)
      {
        assert order[..i + 1][..i] == order[..i];
        if Eligible(artifacts[order[i]], now, staleAfter, maxAttempts) {
          eligible := eligible + [artifacts[order[i]]];
        }
      }
      assert order[..|order|] == order;
    }

    method StampClaims(batch: seq<Artifact>, now: int)
      modifies this
      ensures View() == Registry(old(order), WithClaims(old(artifacts), batch, now))
    {
      for i := 0 to |batch|
        invariant order == old(order)
        invariant artifacts == WithClaims(old(artifacts), batch[..i], now)
      {
        assert batch[..i + 1][..i] == batch[..i];
        artifacts := artifacts[batch[i].id := batch[i].(claimedAt := Some(now))];
      }
      assert batch[..|batch|] == batch;
    }

    method MarkDeleted(workspace: string, id: string, at: int)
      modifies this
      ensures View() == MarkedDeleted(old(View()), workspace, id, at)
    {
      if id !in artifacts || artifacts[id].workspace != workspace {
        return;
      }
      artifacts := artifacts[id := artifacts[id].(status := Deleted, deletedAt := Some(at), claimedAt := None)];
    }

    method RecordDeletionFailure(workspace: string, id: string, error: string)
      modifies this
      ensures View() == FailureRecorded(old(View()), workspace, id, error)
    {
      if id !in artifacts || artifacts[id].workspace != workspace {
        return;
      }
      artifacts := artifacts[id := artifacts[id].(attempts := artifacts[id].attempts + 1, error := Some(error), claimedAt := None)];
    }
  }

  // ---- the retention worker ----

  datatype OutcomeStatus = WasDeleted | DeletionFailed | GaveUp
  datatype Outcome = Outcome(id: string, status: OutcomeStatus)

  /** What the file system says when asked to discard a path: nothing, or an error. */
  type Discards = string -> Option<string>

  function AfterDeleteOne(r: Registry, a: Artifact, discards: Discards, now: int): Registry
  {
    match discards(a.relativePath)
    case None => MarkedDeleted(r, a.workspace, a.id, now)
    case Some(error) => FailureRecorded(r, a.workspace, a.id, error)
  }

  function OutcomeOf(a: Artifact, discards: Discards, maxAttempts: int): Outcome
  {
    if discards(a.relativePath).None? then Outcome(a.id, WasDeleted)
    else Outcome(a.id, if a.attempts + 1 >= maxAttempts then GaveUp else DeletionFailed)
  }

  function Processed(r: Registry, claimed: seq<Artifact>, discards: Discards, now: int): Registry
    decreases |claimed|
  {
    if claimed == [] then r else Processed(AfterDeleteOne(r, claimed[0], discards, now), claimed[1..], discards, now)
  }

  function Outcomes(claimed: seq<Artifact>, discards: Discards, maxAttempts: int): seq<Outcome>
  {
    seq(|claimed|, i requires 0 <= i < |claimed| => OutcomeOf(claimed[i], discards, maxAttempts))
  }

  function Swept(r: Registry, now: int, staleAfter: int, limit: nat, maxAttempts: int, discards: Discards): Registry
    requires forall id :: id in r.order ==> id in r.artifacts
  {
    var batch := Batch(r, now, staleAfter, limit, Some(maxAttempts));
    Processed(Registry(r.order, WithClaims(r.artifacts, batch, now)), ClaimedBatch(batch, now), discards, now)
  }

  class RetentionWorker {
    const store: WorkspaceArtifactStore
    const maxAttempts: int
    const staleAfter: int

    constructor (store: WorkspaceArtifactStore, maxAttempts: int, staleAfter: int)
      ensures this.store == store && this.maxAttempts == maxAttempts && this.staleAfter == staleAfter
    {
      this.store, this.maxAttempts, this.staleAfter := store, maxAttempts, staleAfter;
    }

    method RunOnce(batchSize: nat, now: int, discards: Discards) returns (outcomes: seq<Outcome>)
      requires Valid(store.View())
      modifies store
      ensures store.View() == Swept(old(store.View()), now, staleAfter, batchSize, maxAttempts, discards)
      ensures outcomes == Outcomes(ClaimedBatch(Batch(old(store.View()), now, staleAfter, batchSize, Some(maxAttempts)), now), discards, maxAttempts)
    {
      var claimed := store.ClaimExpired(now, staleAfter, batchSize, Some(maxAttempts));
      ghost var start := store.View();
      outcomes := [];
      for i := 0 to |claimed|
        invariant Processed(store.View(), claimed[i..], discards, now) == Processed(start, claimed, discards, now)
        invariant |outcomes| == i && forall k :: 0 <= k < i ==> outcomes[k] == OutcomeOf(claimed[k], discards, maxAttempts)
      {
        assert claimed[i..][1..] == claimed[i + 1..];
        var outcome := DeleteOne(claimed[i], discards, now);
        outcomes := outcomes + [outcome];
      }
      assert claimed[|claimed|..] == [];
    }

    method DeleteOne(artifact: Artifact, discards: Discards, now: int) returns (outcome: Outcome)
      modifies store
      ensures store.View() == AfterDeleteOne(old(store.View()), artifact, discards, now)
      ensures outcome == OutcomeOf(artifact, discards, maxAttempts)
    {
      var result := discards(artifact.relativePath);
      if result.Some? {
        store.RecordDeletionFailure(artifact.workspace, artifact.id, result.value);
        var attempts := artifact.attempts + 1;
        return Outcome(artifact.id, if attempts >= maxAttempts then GaveUp else DeletionFailed);
      }
      store.MarkDeleted(artifact.workspace, artifact.id, now);
      return Outcome(artifact.id, WasDeleted);
    }
  }

  // ---- what is claimed ----

  predicate DistinctIds(s: seq<Artifact>)
  {
    forall i, j :: 0 <= i < j < |s| ==> s[i].id != s[j].id
  }

  predicate Ascending(s: seq<Artifact>)
  {
    forall i, j :: 0 <= i < j < |s| ==> Expiry(s[i]) <= Expiry(s[j])
  }

  lemma {:induction false} InsertMeaning(s: seq<Artifact>, a: Artifact)
    requires Ascending(s) && DistinctIds(s) && forall i :: 0 <= i < |s| ==> s[i].id != a.id
    ensures Ascending(Insert(s, a)) && DistinctIds(Insert(s, a)) && |Insert(s, a)| == |s| + 1
    ensures forall b :: b in Insert(s, a) <==> b in s || b == a
  {
    if s != [] && Expiry(s[|s| - 1]) > Expiry(a) {
      var n := |s| - 1;
      InsertMeaning(s[..n], a);
      var front := Insert(s[..n], a);
      forall i | 0 <= i < |front| ensures front[i].id != s[n].id && Expiry(front[i]) <= Expiry(s[n]) {
        assert front[i] in front;
        if front[i] != a {
          FromFront(s, front[i]);
        }
      }
      AppendMeaning(front, s[n]);
      assert s == s[..n] + [s[n]];
    } else {
      AppendMeaning(s, a);
    }
  }

  lemma FromFront(s: seq<Artifact>, a: Artifact)
    requires s != [] && Ascending(s) && DistinctIds(s) && a in s[..|s| - 1]
    ensures a.id != s[|s| - 1].id && Expiry(a) <= Expiry(s[|s| - 1])
  {
    var k :| 0 <= k < |s| - 1 && s[..|s| - 1][k] == a;
    assert s[k] == a;
  }

  lemma AppendMeaning(s: seq<Artifact>, a: Artifact)
    requires Ascending(s) && DistinctIds(s)
    requires forall i :: 0 <= i < |s| ==> s[i].id != a.id && Expiry(s[i]) <= Expiry(a)
    ensures Ascending(s + [a]) && DistinctIds(s + [a])
  {
  }

  lemma {:induction false} SortMeaning(s: seq<Artifact>)
    requires DistinctIds(s)
    ensures Ascending(SortedByExpiry(s)) && DistinctIds(SortedByExpiry(s)) && |SortedByExpiry(s)| == |s|
    ensures forall b :: b in SortedByExpiry(s) <==> b in s
  {
    if s != [] {
      hide Ascending;
      var n := |s| - 1;
      SortMeaning(s[..n]);
      var sorted := SortedByExpiry(s[..n]);
      assert s == s[..n] + [s[n]];
      forall i | 0 <= i < |sorted| ensures sorted[i].id != s[n].id {
        assert sorted[i] in s[..n];
        var k :| 0 <= k < n && s[..n][k] == sorted[i];
        assert s[k] == sorted[i];
      }
      InsertMeaning(sorted, s[n]);
    }
  }

  lemma {:induction false} EligibleMeaning(r: Registry, order: seq<string>, now: int, staleAfter: int, maxAttempts: Option<int>)
    requires Valid(r) && Distinct(order) && forall id :: id in order ==> id in r.artifacts
    ensures var eligible := EligibleIn(r, order, now, staleAfter, maxAttempts);
      && DistinctIds(eligible)
      && (forall a :: a in eligible <==> a.id in order && a == r.artifacts[a.id] && Eligible(a, now, staleAfter, maxAttempts))
  {
    if order != [] {
      var n := |order| - 1;
      EligibleMeaning(r, order[..n], now, staleAfter, maxAttempts);
      assert order == order[..n] + [order[n]];
      var front := EligibleIn(r, order[..n], now, staleAfter, maxAttempts);
      forall i | 0 <= i < |front| ensures front[i].id != order[n] {
        assert front[i] in front;
        var k :| 0 <= k < n && order[..n][k] == front[i].id;
        assert order[k] == front[i].id;
      }
    }
  }

  /** The artifacts of a batch are eligible rows of the registry, each taken once. */
  ghost predicate TakenFrom(r: Registry, batch: seq<Artifact>, now: int, staleAfter: int, maxAttempts: Option<int>)
  {
    && DistinctIds(batch)
    && forall i :: 0 <= i < |batch| ==>
         batch[i].id in r.artifacts && batch[i] == r.artifacts[batch[i].id] && Eligible(batch[i], now, staleAfter, maxAttempts)
  }

  /** The artifact is not one of the batch. */
  ghost predicate NotAmong(batch: seq<Artifact>, id: string)
  {
    forall i :: 0 <= i < |batch| ==> batch[i].id != id
  }

  /**
   A batch is made of distinct eligible artifacts, as many as there are up to the limit, and no
   eligible artifact left out expires before one that was taken.
   */
  lemma BatchIsEarliest(r: Registry, now: int, staleAfter: int, limit: nat, maxAttempts: Option<int>)
    requires Valid(r)
    ensures var batch := Batch(r, now, staleAfter, limit, maxAttempts);
      && |batch| <= limit && TakenFrom(r, batch, now, staleAfter, maxAttempts) && Ascending(batch)
      && (forall id :: id in r.artifacts && Eligible(r.artifacts[id], now, staleAfter, maxAttempts) && NotAmong(batch, id) ==>
            |batch| == limit && forall i :: 0 <= i < |batch| ==> Expiry(batch[i]) <= Expiry(r.artifacts[id]))
  {
    var eligible := EligibleIn(r, r.order, now, staleAfter, maxAttempts);
    EligibleMeaning(r, r.order, now, staleAfter, maxAttempts);
    SortMeaning(eligible);
    var sorted, batch := SortedByExpiry(eligible), Batch(r, now, staleAfter, limit, maxAttempts);
    hide Eligible, Ascending, SortedByExpiry, EligibleIn;
    forall i | 0 <= i < |batch|
      ensures batch[i].id in r.artifacts && batch[i] == r.artifacts[batch[i].id] && Eligible(batch[i], now, staleAfter, maxAttempts)
    {
      assert sorted[i] in sorted;
    }
    PrefixAscending(sorted, batch);
    forall id | id in r.artifacts && Eligible(r.artifacts[id], now, staleAfter, maxAttempts) && NotAmong(batch, id)
      ensures |batch| == limit && forall i :: 0 <= i < |batch| ==> Expiry(batch[i]) <= Expiry(r.artifacts[id])
    {
      assert r.artifacts[id].id == id && r.artifacts[id] in sorted;
      LeftOutIsLater(sorted, batch, r.artifacts[id]);
    }
  }

  lemma PrefixAscending(sorted: seq<Artifact>, batch: seq<Artifact>)
    requires Ascending(sorted) && batch <= sorted
    ensures Ascending(batch)
  {
  }

  lemma LeftOutIsLater(sorted: seq<Artifact>, batch: seq<Artifact>, a: Artifact)
    requires Ascending(sorted) && batch <= sorted && a in sorted && NotAmong(batch, a.id)
    ensures |batch| < |sorted| && forall i :: 0 <= i < |batch| ==> Expiry(batch[i]) <= Expiry(a)
  {
    var k :| 0 <= k < |sorted| && sorted[k] == a;
    assert k >= |batch|;
    forall i | 0 <= i < |batch| ensures Expiry(batch[i]) <= Expiry(a) {
      assert Expiry(sorted[i]) <= Expiry(sorted[k]);
    }
  }

  /** The batch's rows carry the claim and no other row has changed. */
  ghost predicate ClaimsExactly(artifacts: map<string, Artifact>, batch: seq<Artifact>, now: int, claimed: map<string, Artifact>)
  {
    && claimed.Keys == artifacts.Keys
    && (forall i :: 0 <= i < |batch| ==> batch[i].id in artifacts && claimed[batch[i].id] == batch[i].(claimedAt := Some(now)))
    && (forall id :: id in artifacts && NotAmong(batch, id) ==> claimed[id] == artifacts[id])
  }

  lemma ClaimsStep(artifacts: map<string, Artifact>, front: seq<Artifact>, last: Artifact, now: int, claimed: map<string, Artifact>)
    requires ClaimsExactly(artifacts, front, now, claimed) && last.id in artifacts && NotAmong(front, last.id)
    ensures ClaimsExactly(artifacts, front + [last], now, claimed[last.id := last.(claimedAt := Some(now))])
  {
    var batch := front + [last];
    assert forall id :: NotAmong(batch, id) ==> NotAmong(front, id) && id != last.id by {
      forall id | NotAmong(batch, id)
        ensures NotAmong(front, id) && id != last.id
      {
        assert batch[|front|] == last;
        assert forall i :: 0 <= i < |front| ==> batch[i] == front[i];
      }
    }
  }

  lemma {:induction false} WithClaimsMeaning(artifacts: map<string, Artifact>, batch: seq<Artifact>, now: int)
    requires DistinctIds(batch) && forall i :: 0 <= i < |batch| ==> batch[i].id in artifacts
    ensures ClaimsExactly(artifacts, batch, now, WithClaims(artifacts, batch, now))
  {
    if batch != [] {
      var n := |batch| - 1;
      WithClaimsMeaning(artifacts, batch[..n], now);
      assert NotAmong(batch[..n], batch[n].id);
      hide DistinctIds, ClaimsExactly;
      ClaimsStep(artifacts, batch[..n], batch[n], now, WithClaims(artifacts, batch[..n], now));
      assert batch == batch[..n] + [batch[n]];
    }
  }

  // ---- what a sweep changes ----

  /** The claimed artifacts are in the registry as claimed, each once. */
  ghost predicate Holds(r: Registry, claimed: seq<Artifact>)
  {
    DistinctIds(claimed) && forall i :: 0 <= i < |claimed| ==> claimed[i].id in r.artifacts && r.artifacts[claimed[i].id] == claimed[i]
  }

  /** What becomes of one claimed artifact. */
  function Settled(a: Artifact, discards: Discards, now: int): Artifact
  {
    match discards(a.relativePath)
    case None => a.(status := Deleted, deletedAt := Some(now), claimedAt := None)
    case Some(error) => a.(attempts := a.attempts + 1, error := Some(error), claimedAt := None)
  }

  /** Each artifact of the batch is settled, and nothing else changes. */
  ghost predicate SettlesExactly(r: Registry, r': Registry, batch: seq<Artifact>, discards: Discards, now: int)
  {
    && r'.order == r.order && r'.artifacts.Keys == r.artifacts.Keys
    && (forall i :: 0 <= i < |batch| ==> batch[i].id in r.artifacts && r'.artifacts[batch[i].id] == Settled(batch[i], discards, now))
    && (forall id :: id in r.artifacts && NotAmong(batch, id) ==> r'.artifacts[id] == r.artifacts[id])
  }

  lemma {:induction false} ProcessedMeaning(r: Registry, claimed: seq<Artifact>, discards: Discards, now: int)
    requires Holds(r, claimed)
    ensures SettlesExactly(r, Processed(r, claimed, discards, now), claimed, discards, now)
    decreases |claimed|
  {
    if claimed != [] {
      var next := AfterDeleteOne(r, claimed[0], discards, now);
      assert next.artifacts == r.artifacts[claimed[0].id := Settled(claimed[0], discards, now)];
      ProcessedMeaning(next, claimed[1..], discards, now);
      assert forall i :: 1 <= i < |claimed| ==> claimed[i] == claimed[1..][i - 1];
      assert NotAmong(claimed[1..], claimed[0].id);
      assert forall id :: NotAmong(claimed, id) ==> NotAmong(claimed[1..], id) && claimed[0].id != id;
    }
  }

  /**
   One sweep: each artifact of the batch is deleted or has one more failed attempt and is free
   to be claimed again; every other artifact is exactly as it was.
   */
  lemma SweptMeaning(r: Registry, now: int, staleAfter: int, limit: nat, maxAttempts: int, discards: Discards)
    requires Valid(r)
    ensures Valid(Swept(r, now, staleAfter, limit, maxAttempts, discards))
    ensures SettlesExactly(r, Swept(r, now, staleAfter, limit, maxAttempts, discards), Batch(r, now, staleAfter, limit, Some(maxAttempts)), discards, now)
  {
    var batch := Batch(r, now, staleAfter, limit, Some(maxAttempts));
    BatchIsEarliest(r, now, staleAfter, limit, Some(maxAttempts));
    SettleBatch(r, batch, discards, now);
  }

  lemma SettleBatch(r: Registry, batch: seq<Artifact>, discards: Discards, now: int)
    requires Valid(r) && DistinctIds(batch)
    requires forall i :: 0 <= i < |batch| ==> batch[i].id in r.artifacts && batch[i] == r.artifacts[batch[i].id]
    ensures var r' := Processed(Registry(r.order, WithClaims(r.artifacts, batch, now)), ClaimedBatch(batch, now), discards, now);
      Valid(r') && SettlesExactly(r, r', batch, discards, now)
  {
    WithClaimsMeaning(r.artifacts, batch, now);
    var claimed, start := ClaimedBatch(batch, now), Registry(r.order, WithClaims(r.artifacts, batch, now));
    hide WithClaims, Processed, Settled;
    ProcessedMeaning(start, claimed, discards, now);
    var r' := Processed(start, claimed, discards, now);
    ClaimedAlike(batch, discards, now);
    assert SettlesExactly(r, r', batch, discards, now);
    SettledIds(r, r', batch, discards, now);
  }

  /** Settling does not depend on the claim, and claiming does not change which artifacts a batch names. */
  lemma ClaimedAlike(batch: seq<Artifact>, discards: Discards, now: int)
    ensures var claimed := ClaimedBatch(batch, now);
      && (forall i :: 0 <= i < |batch| ==> claimed[i].id == batch[i].id && Settled(claimed[i], discards, now) == Settled(batch[i], discards, now))
      && (forall id :: NotAmong(batch, id) <==> NotAmong(claimed, id))
  {
    var claimed := ClaimedBatch(batch, now);
    assert forall i :: 0 <= i < |batch| ==> claimed[i].id == batch[i].id;
  }

  lemma SettledIds(r: Registry, r': Registry, batch: seq<Artifact>, discards: Discards, now: int)
    requires Valid(r) && SettlesExactly(r, r', batch, discards, now)
    ensures Valid(r')
  {
    forall id | id in r'.artifacts ensures r'.artifacts[id].id == id {
      if !NotAmong(batch, id) {
        var i :| 0 <= i < |batch| && batch[i].id == id;
        assert r'.artifacts[batch[i].id] == Settled(batch[i], discards, now);
      }
    }
  }

  /** An artifact that is held, permanent, or not ready is never touched, whatever the worker is asked. */
  lemma NeverTouched(r: Registry, now: int, staleAfter: int, limit: nat, maxAttempts: int, discards: Discards, id: string)
    requires Valid(r) && id in r.artifacts
    requires r.artifacts[id].policy != Standard || r.artifacts[id].status != Ready
    ensures var r' := Swept(r, now, staleAfter, limit, maxAttempts, discards); id in r'.artifacts && r'.artifacts[id] == r.artifacts[id]
  {
    hide Swept, Batch;
    SweptMeaning(r, now, staleAfter, limit, maxAttempts, discards);
    BatchIsEarliest(r, now, staleAfter, limit, Some(maxAttempts));
    assert NotAmong(Batch(r, now, staleAfter, limit, Some(maxAttempts)), id);
  }

  // ---- the sweep drains ----

  ghost predicate AttemptsBounded(r: Registry, maxAttempts: int)
  {
    forall id :: id in r.artifacts ==> r.artifacts[id].attempts <= maxAttempts
  }

  /** No artifact is tried more often than the limit allows, over any one sweep. */
  lemma AttemptsStayBounded(r: Registry, now: int, staleAfter: int, limit: nat, maxAttempts: int, discards: Discards)
    requires Valid(r) && AttemptsBounded(r, maxAttempts)
    ensures AttemptsBounded(Swept(r, now, staleAfter, limit, maxAttempts, discards), maxAttempts)
  {
    hide Swept, Batch, Valid;
    SweptMeaning(r, now, staleAfter, limit, maxAttempts, discards);
    BatchIsEarliest(r, now, staleAfter, limit, Some(maxAttempts));
    var batch, r' := Batch(r, now, staleAfter, limit, Some(maxAttempts)), Swept(r, now, staleAfter, limit, maxAttempts, discards);
    forall id | id in r'.artifacts ensures r'.artifacts[id].attempts <= maxAttempts {
      if !NotAmong(batch, id) {
        var i :| 0 <= i < |batch| && batch[i].id == id;
        assert r'.artifacts[batch[i].id] == Settled(batch[i], discards, now);
      }
    }
  }

  /** How many more times an artifact could be claimed. */
  function Left(a: Artifact, maxAttempts: int): (n: nat)
  {
    if a.status == Ready && a.attempts < maxAttempts then maxAttempts - a.attempts else 0
  }

  function TotalLeft(order: seq<string>, artifacts: map<string, Artifact>, maxAttempts: int): nat
    requires forall id :: id in order ==> id in artifacts
  {
    if order == [] then 0
    else TotalLeft(order[..|order| - 1], artifacts, maxAttempts) + Left(artifacts[order[|order| - 1]], maxAttempts)
  }

  /** Over distinct keys, a total drops by at least the number of keys whose share dropped. */
  lemma {:induction false} TotalDrops(order: seq<string>, before: map<string, Artifact>, after: map<string, Artifact>, maxAttempts: int, changed: set<string>)
    requires Distinct(order) && before.Keys == after.Keys && forall id :: id in order ==> id in before
    requires forall id :: id in order && id !in changed ==> after[id] == before[id]
    requires forall id :: id in order && id in changed ==> Left(after[id], maxAttempts) < Left(before[id], maxAttempts)
    requires forall id :: id in changed ==> id in order
    ensures TotalLeft(order, after, maxAttempts) + |changed| <= TotalLeft(order, before, maxAttempts)
  {
    if order == [] {
      assert changed == {};
    } else {
      var n := |order| - 1;
      assert order == order[..n] + [order[n]];
      assert order[n] !in order[..n];
      TotalDrops(order[..n], before, after, maxAttempts, changed - {order[n]});
    }
  }

  /** Each sweep lowers the total of remaining attempts by at least the size of its batch. */
  lemma SweepDecreases(r: Registry, now: int, staleAfter: int, limit: nat, maxAttempts: int, discards: Discards)
    requires Valid(r)
    ensures var r' := Swept(r, now, staleAfter, limit, maxAttempts, discards);
      && Valid(r')
      && TotalLeft(r'.order, r'.artifacts, maxAttempts) + |Batch(r, now, staleAfter, limit, Some(maxAttempts))|
         <= TotalLeft(r.order, r.artifacts, maxAttempts)
  {
    hide Swept, Batch, TotalLeft;
    var batch, r' := Batch(r, now, staleAfter, limit, Some(maxAttempts)), Swept(r, now, staleAfter, limit, maxAttempts, discards);
    SweptMeaning(r, now, staleAfter, limit, maxAttempts, discards);
    BatchIsEarliest(r, now, staleAfter, limit, Some(maxAttempts));
    SettledLowers(r, r', batch, now, staleAfter, maxAttempts, discards);
  }

  lemma SettledLowers(r: Registry, r': Registry, batch: seq<Artifact>, now: int, staleAfter: int, maxAttempts: int, discards: Discards)
    requires Valid(r) && TakenFrom(r, batch, now, staleAfter, Some(maxAttempts)) && SettlesExactly(r, r', batch, discards, now)
    ensures TotalLeft(r.order, r'.artifacts, maxAttempts) + |batch| <= TotalLeft(r.order, r.artifacts, maxAttempts)
  {
    hide TotalLeft;
    var changed := set i | 0 <= i < |batch| :: batch[i].id;
    IdsCount(batch);
    forall id | id in changed ensures id in r.order && Left(r'.artifacts[id], maxAttempts) < Left(r.artifacts[id], maxAttempts) {
      var i :| 0 <= i < |batch| && batch[i].id == id;
      assert r'.artifacts[batch[i].id] == Settled(batch[i], discards, now);
    }
    forall id | id in r.order && id !in changed ensures r'.artifacts[id] == r.artifacts[id] {
      assert NotAmong(batch, id);
    }
    TotalDrops(r.order, r.artifacts, r'.artifacts, maxAttempts, changed);
  }

  lemma {:induction false} IdsCount(s: seq<Artifact>)
    requires DistinctIds(s)
    ensures |set i | 0 <= i < |s| :: s[i].id| == |s|
  {
    if s != [] {
      var n := |s| - 1;
      IdsCount(s[..n]);
      var front := set i | 0 <= i < n :: s[..n][i].id;
      var all := set i | 0 <= i < |s| :: s[i].id;
      forall id | id in all && id != s[n].id ensures id in front {
        var i :| 0 <= i < |s| && s[i].id == id;
        assert s[..n][i].id == id;
      }
      forall id | id in front ensures id in all {
        var i :| 0 <= i < n && s[..n][i].id == id;
        assert s[i].id == id;
      }
      assert s[n].id in all;
      assert all == front + {s[n].id};
    }
  }

  /** A round of work: when it runs, how much it may take, and what the file system does. */
  datatype Round = Round(now: int, staleAfter: int, limit: nat, discards: Discards)

  function AfterRound(r: Registry, round: Round, maxAttempts: int): (r': Registry)
    requires Valid(r)
    ensures Valid(r')
  {
    SweptMeaning(r, round.now, round.staleAfter, round.limit, maxAttempts, round.discards);
    Swept(r, round.now, round.staleAfter, round.limit, maxAttempts, round.discards)
  }

  function BatchOf(r: Registry, round: Round, maxAttempts: int): seq<Artifact>
    requires Valid(r)
  {
    Batch(r, round.now, round.staleAfter, round.limit, Some(maxAttempts))
  }

  function AfterRounds(r: Registry, rounds: seq<Round>, maxAttempts: int): (r': Registry)
    requires Valid(r)
    ensures Valid(r')
    decreases |rounds|
  {
    if rounds == [] then r else AfterRounds(AfterRound(r, rounds[0], maxAttempts), rounds[1..], maxAttempts)
  }

  function ClaimsMade(r: Registry, rounds: seq<Round>, maxAttempts: int): nat
    requires Valid(r)
    decreases |rounds|
  {
    if rounds == [] then 0
    else |BatchOf(r, rounds[0], maxAttempts)| + ClaimsMade(AfterRound(r, rounds[0], maxAttempts), rounds[1..], maxAttempts)
  }

  /** All the attempts the registry's artifacts have left. */
  function Budget(r: Registry, maxAttempts: int): nat
    requires Valid(r)
  {
    TotalLeft(r.order, r.artifacts, maxAttempts)
  }

  lemma RoundSpends(r: Registry, round: Round, maxAttempts: int)
    requires Valid(r)
    ensures Budget(AfterRound(r, round, maxAttempts), maxAttempts) + |BatchOf(r, round, maxAttempts)| <= Budget(r, maxAttempts)
    ensures AttemptsBounded(r, maxAttempts) ==> AttemptsBounded(AfterRound(r, round, maxAttempts), maxAttempts)
  {
    hide Swept, Batch, TotalLeft, AttemptsBounded, Valid;
    SweepDecreases(r, round.now, round.staleAfter, round.limit, maxAttempts, round.discards);
    if AttemptsBounded(r, maxAttempts) {
      AttemptsStayBounded(r, round.now, round.staleAfter, round.limit, maxAttempts, round.discards);
    }
  }

  /** However many sweeps run, at whatever times, they claim no more often than the attempts that were left, and never overstep the limit. */
  lemma {:induction false} FinitelyManyClaims(r: Registry, rounds: seq<Round>, maxAttempts: int)
    requires Valid(r)
    ensures ClaimsMade(r, rounds, maxAttempts) <= Budget(r, maxAttempts)
    ensures AttemptsBounded(r, maxAttempts) ==> AttemptsBounded(AfterRounds(r, rounds, maxAttempts), maxAttempts)
    decreases |rounds|
  {
    hide AfterRound, BatchOf, Budget, AttemptsBounded, Valid;
    if rounds != [] {
      RoundSpends(r, rounds[0], maxAttempts);
      FinitelyManyClaims(AfterRound(r, rounds[0], maxAttempts), rounds[1..], maxAttempts);
    }
  }

  /** Over any sweeps at any times, an artifact that is held, permanent, or not ready stays exactly as it is. */
  lemma {:induction false} NeverTouchedByRounds(r: Registry, rounds: seq<Round>, maxAttempts: int, id: string)
    requires Valid(r) && id in r.artifacts
    requires r.artifacts[id].policy != Standard || r.artifacts[id].status != Ready
    ensures var r' := AfterRounds(r, rounds, maxAttempts);
      id in r'.artifacts && r'.artifacts[id] == r.artifacts[id]
    decreases |rounds|
  {
    hide Swept, Valid;
    if rounds != [] {
      var round := rounds[0];
      NeverTouched(r, round.now, round.staleAfter, round.limit, maxAttempts, round.discards, id);
      NeverTouchedByRounds(AfterRound(r, round, maxAttempts), rounds[1..], maxAttempts, id);
    }
  }

  function Repeat(round: Round, n: nat): (rounds: seq<Round>)
    ensures |rounds| == n
  {
    seq(n, _ => round)
  }

  ghost predicate NothingEligible(r: Registry, round: Round, maxAttempts: int)
  {
    forall id :: id in r.artifacts ==> !Eligible(r.artifacts[id], round.now, round.staleAfter, Some(maxAttempts))
  }

  /** A round that may take something takes nothing exactly when nothing is eligible, and then changes nothing. */
  lemma EmptyRoundIff(r: Registry, round: Round, maxAttempts: int)
    requires Valid(r) && round.limit >= 1
    ensures BatchOf(r, round, maxAttempts) == [] <==> NothingEligible(r, round, maxAttempts)
    ensures BatchOf(r, round, maxAttempts) == [] ==> AfterRound(r, round, maxAttempts) == r
  {
    hide Batch;
    BatchIsEarliest(r, round.now, round.staleAfter, round.limit, Some(maxAttempts));
    var batch := BatchOf(r, round, maxAttempts);
    if batch == [] {
      assert forall id :: NotAmong(batch, id);
    } else {
      assert Eligible(r.artifacts[batch[0].id], round.now, round.staleAfter, Some(maxAttempts));
    }
  }

  /**
   Sweeping at one moment for long enough leaves nothing eligible: every expired standard
   artifact is deleted, given up, or freshly claimed by another worker.
   */
  lemma {:induction false} SweepDrains(r: Registry, round: Round, rounds: nat, maxAttempts: int)
    requires Valid(r) && round.limit >= 1
    requires rounds >= Budget(r, maxAttempts)
    ensures NothingEligible(AfterRounds(r, Repeat(round, rounds), maxAttempts), round, maxAttempts)
    decreases rounds
  {
    hide AfterRound, BatchOf, Budget, Valid, NothingEligible;
    EmptyRoundIff(r, round, maxAttempts);
    RoundSpends(r, round, maxAttempts);
    if rounds > 0 {
      assert Repeat(round, rounds)[1..] == Repeat(round, rounds - 1);
      if BatchOf(r, round, maxAttempts) == [] {
        NothingStaysNothing(r, round, rounds, maxAttempts);
      } else {
        SweepDrains(AfterRound(r, round, maxAttempts), round, rounds - 1, maxAttempts);
      }
    }
  }

  lemma {:induction false} NothingStaysNothing(r: Registry, round: Round, rounds: nat, maxAttempts: int)
    requires Valid(r) && AfterRound(r, round, maxAttempts) == r
    ensures AfterRounds(r, Repeat(round, rounds), maxAttempts) == r
  {
    hide AfterRound, Valid;
    if rounds > 0 {
      assert Repeat(round, rounds)[1..] == Repeat(round, rounds - 1);
      NothingStaysNothing(r, round, rounds - 1, maxAttempts);
    }
  }

  /** The worker reports giving up exactly when the artifact stays behind with its attempts used up. */
  lemma GaveUpIff(a: Artifact, discards: Discards, maxAttempts: int, now: int)
    requires a.status == Ready && a.attempts < maxAttempts
    ensures OutcomeOf(a, discards, maxAttempts).status == GaveUp <==>
      Settled(a, discards, now).status == Ready && Left(Settled(a, discards, now), maxAttempts) == 0
  {
  }

  /** The worker reports a deletion exactly when the artifact ends up deleted, and otherwise that it gave up exactly when no attempt is left. */
  lemma OutcomeTells(a: Artifact, discards: Discards, maxAttempts: int, now: int)
    requires a.status == Ready
    ensures OutcomeOf(a, discards, maxAttempts).id == a.id
    ensures OutcomeOf(a, discards, maxAttempts).status == WasDeleted <==> Settled(a, discards, now).status == Deleted
    ensures OutcomeOf(a, discards, maxAttempts).status == DeletionFailed <==>
      Settled(a, discards, now).status == Ready && Settled(a, discards, now).attempts < maxAttempts
  {
  }
}
