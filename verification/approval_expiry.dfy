/**
 When an approval request expires, told by the calls alone: its creation, its lifetime, and the moments
 of the decisions asked for (backend/app/security/approvals.py:128-200).
 */
module ApprovalExpiry {
  import opened Common
  import opened AgentStates
  import opened Approvals

  ghost predicate Forward(calls: seq<Timed>)
  {
    forall i, j :: 0 <= i < j < |calls| ==> calls[i].now <= calls[j].now
  }

  /** A request's own expiry, or else so long after its creation as the store lets requests live. */
  function Deadline(ttl: Option<int>, request: ApprovalRequest): Option<int>
  {
    if request.expiresAt.Some? then request.expiresAt
    else if ttl.Some? then Some(request.createdAt + ttl.value)
    else None
  }

  predicate InTime(deadline: Option<int>, now: int)
  {
    deadline.None? || now < deadline.value
  }

  /** What has happened to a request: its decision and when, when its execution started, when it completed, and the run's state as last left. */
  datatype Life = Life(decision: Option<(ApprovalStatus, int)>, started: Option<int>, completed: Option<int>, state: RunState)

  /** What a caller is told at this moment: the decision, or pending until the deadline and expired from then on. */
  function Told(deadline: Option<int>, life: Life, now: int): ApprovalStatus
  {
    if life.decision.Some? then life.decision.value.0 else if InTime(deadline, now) then Pending else Expired
  }

  predicate ApprovesOrRejects(status: ApprovalStatus)
  {
    status == Approved || status == Rejected
  }

  function Lived(deadline: Option<int>, life: Life, id: Id, timed: Timed): Life
  {
    match timed.call
    case Resolve(other, status) =>
      if other == id && ApprovesOrRejects(status) && life.decision.None? && InTime(deadline, timed.now)
      then life.(decision := Some((status, timed.now))) else life
    case Claim(other, expected) =>
      if other == id && expected == Told(deadline, life, timed.now) && life.started.None? then life.(started := Some(timed.now)) else life
    case Complete(other, state) => if other == id then life.(completed := Some(timed.now), state := state) else life
    case _ => life
  }

  function NewLife(request: ApprovalRequest, checkpoint: Checkpoint): Life
  {
    Life(None, None, request.completedAt, checkpoint.state)
  }

  /** The life of the request created by call k, up to call n. */
  function LifeAt(ttl: Option<int>, calls: seq<Timed>, k: nat, n: nat, id: Id): Life
    requires k < n <= |calls| && calls[k].call.Create?
  {
    if n == k + 1 then NewLife(calls[k].call.request, calls[k].call.checkpoint)
    else Lived(Deadline(ttl, calls[k].call.request), LifeAt(ttl, calls, k, n - 1, id), id, calls[n - 1])
  }

  /** The stored record is the one created, with the deadline and the life the calls gave it: its action is never another. */
  predicate Matches(ttl: Option<int>, creation: Call, life: Life, latest: int, record: Record)
    requires creation.Create?
  {
    var created, stored := creation.request, record.request;
    && record.checkpoint == Checkpoint(life.state, creation.checkpoint.action, creation.checkpoint.fingerprint)
    && stored.runId == created.runId && stored.fingerprint == created.fingerprint && stored.createdAt == created.createdAt
    && stored.expiresAt == Deadline(ttl, created)
    && stored.startedAt == life.started && stored.completedAt == life.completed
    && (life.decision.Some? ==>
        stored.status == life.decision.value.0 && ApprovesOrRejects(stored.status) && stored.resolvedAt == Some(life.decision.value.1))
    && (life.decision.None? ==>
        || (stored.status == Pending && stored.resolvedAt == created.resolvedAt)
        || (stored.status == Expired && !InTime(Deadline(ttl, created), latest)))
  }

  predicate CreatedAt(calls: seq<Timed>, k: nat, id: Id)
  {
    k < |calls| && calls[k].call.Create? && calls[k].call.id == id
  }

  lemma CallMatches(ttl: Option<int>, store: Store, timed: Timed, id: Id, creation: Call, life: Life, latest: int)
    requires creation.Create? && id in store && Matches(ttl, creation, life, latest, store[id]) && latest <= timed.now
    requires timed.call.Create? ==> timed.call.id != id
    ensures id in Step(ttl, store, timed)
    ensures Matches(ttl, creation, Lived(Deadline(ttl, creation.request), life, id, timed), timed.now, Step(ttl, store, timed)[id])
  {
    match timed.call
    case Resolve(_, _) =>
    case Claim(_, _) =>
    case _ =>
  }

  /** The store holds of every request what the calls say of it. */
  lemma {:induction false} StoreTells(ttl: Option<int>, calls: seq<Timed>, k: nat, n: nat, id: Id)
    requires Legal(ttl, calls) && Forward(calls) && CreatedAt(calls, k, id) && k < n <= |calls|
    ensures id in After(ttl, calls[..n])
    ensures Matches(ttl, calls[k].call, LifeAt(ttl, calls, k, n, id), calls[n - 1].now, After(ttl, calls[..n])[id])
  {
    assert calls[..n][..n - 1] == calls[..n - 1] && calls[..n][n - 1] == calls[n - 1];
    hide Matches, After;
    assert After(ttl, calls[..n]) == Step(ttl, After(ttl, calls[..n - 1]), calls[n - 1]) by { AfterUnfolds(ttl, calls, n); }
    if n == k + 1 {
      CreatedMatches(ttl, After(ttl, calls[..k]), calls[k]);
    } else {
      StoreTells(ttl, calls, k, n - 1, id);
      NotCreatedAgain(ttl, calls, k, n - 1, id);
      CallMatches(ttl, After(ttl, calls[..n - 1]), calls[n - 1], id, calls[k].call, LifeAt(ttl, calls, k, n - 1, id), calls[n - 2].now);
    }
  }

  lemma AfterUnfolds(ttl: Option<int>, calls: seq<Timed>, n: nat)
    requires 0 < n <= |calls|
    ensures After(ttl, calls[..n]) == Step(ttl, After(ttl, calls[..n - 1]), calls[n - 1])
  {
    assert calls[..n][..n - 1] == calls[..n - 1];
    hide Step;
  }

  lemma CreatedMatches(ttl: Option<int>, store: Store, timed: Timed)
    requires timed.call.Create? && timed.call.request.status == Pending && timed.call.request.startedAt.None?
    ensures timed.call.id in Step(ttl, store, timed)
    ensures Matches(ttl, timed.call, NewLife(timed.call.request, timed.call.checkpoint), timed.now, Step(ttl, store, timed)[timed.call.id])
  {
  }

  lemma NotCreatedAgain(ttl: Option<int>, calls: seq<Timed>, k: nat, n: nat, id: Id)
    requires Legal(ttl, calls) && CreatedAt(calls, k, id) && k < n < |calls| && id in After(ttl, calls[..n])
    ensures calls[n].call.Create? ==> calls[n].call.id != id
  {
    hide After;
  }

  // ---- what callers get ----

  /**
   What a read returns, at any moment after the calls so far: the decision if there was one in time,
   else pending before the deadline and expired from the deadline on.
   */
  lemma ReadTells(ttl: Option<int>, calls: seq<Timed>, k: nat, id: Id, now: int)
    requires Legal(ttl, calls) && Forward(calls) && CreatedAt(calls, k, id) && calls[|calls| - 1].now <= now
    ensures var store := Step(ttl, After(ttl, calls), Timed(Get(id), now));
      id in store && store[id].request.status == Told(Deadline(ttl, calls[k].call.request), LifeAt(ttl, calls, k, |calls|, id), now)
  {
    StoreTells(ttl, calls, k, |calls|, id);
    assert calls[..|calls|] == calls;
    hide After, LifeAt, Legal;
  }

  /** A listing of the request's run shows the same. */
  lemma ListTells(ttl: Option<int>, calls: seq<Timed>, k: nat, id: Id, now: int)
    requires Legal(ttl, calls) && Forward(calls) && CreatedAt(calls, k, id) && calls[|calls| - 1].now <= now
    ensures var store := Step(ttl, After(ttl, calls), Timed(List(calls[k].call.request.runId), now));
      id in store && store[id].request.status == Told(Deadline(ttl, calls[k].call.request), LifeAt(ttl, calls, k, |calls|, id), now)
  {
    StoreTells(ttl, calls, k, |calls|, id);
    assert calls[..|calls|] == calls;
    hide After, LifeAt, Legal;
  }

  /** An approval or a rejection is accepted exactly when it repeats the decision made, or none was made and the deadline has not come; otherwise it conflicts. */
  lemma DecisionAcceptedIff(ttl: Option<int>, calls: seq<Timed>, k: nat, id: Id, status: ApprovalStatus, now: int)
    requires Legal(ttl, calls) && Forward(calls) && CreatedAt(calls, k, id) && calls[|calls| - 1].now <= now
    requires ApprovesOrRejects(status)
    ensures var deadline, life := Deadline(ttl, calls[k].call.request), LifeAt(ttl, calls, k, |calls|, id);
      var result := Resolved(After(ttl, calls), id, status, now).1;
      && (result.Ok? <==> if life.decision.Some? then life.decision.value.0 == status else deadline.None? || now < deadline.value)
      && (result.Ok? ==> result.value.status == status)
      && (!result.Ok? ==> result == Raised(Conflict))
  {
    StoreTells(ttl, calls, k, |calls|, id);
    assert calls[..|calls|] == calls;
    hide After, LifeAt, Legal;
  }

  /** A claim is granted exactly when what it expects is what a reader would be told then, and no claim was granted before. */
  lemma ClaimGrantedIff(ttl: Option<int>, calls: seq<Timed>, k: nat, id: Id, expected: ApprovalStatus, now: int)
    requires Legal(ttl, calls) && Forward(calls) && CreatedAt(calls, k, id) && calls[|calls| - 1].now <= now
    ensures var life := LifeAt(ttl, calls, k, |calls|, id);
      var result := Claimed(After(ttl, calls), id, expected, now).1;
      && result.Ok?
      && (result.value.Some? <==> life.started.None? && expected == Told(Deadline(ttl, calls[k].call.request), life, now))
  {
    StoreTells(ttl, calls, k, |calls|, id);
    assert calls[..|calls|] == calls;
    hide After, LifeAt, Legal;
  }

  // ---- too late ----

  /** None of the calls between k and n decides the request before the deadline. */
  predicate UndecidedInTime(calls: seq<Timed>, k: nat, n: nat, id: Id, deadline: int)
    requires n <= |calls|
  {
    forall j :: k < j < n && calls[j].call.Resolve? && calls[j].call.id == id && ApprovesOrRejects(calls[j].call.status) ==> deadline <= calls[j].now
  }

  lemma {:induction false} NeverDecided(ttl: Option<int>, calls: seq<Timed>, k: nat, n: nat, id: Id, deadline: int)
    requires k < n <= |calls| && CreatedAt(calls, k, id) && Deadline(ttl, calls[k].call.request) == Some(deadline)
    ensures LifeAt(ttl, calls, k, n, id).decision.None? <==> UndecidedInTime(calls, k, n, id, deadline)
  {
    if n > k + 1 {
      NeverDecided(ttl, calls, k, n - 1, id, deadline);
    }
  }

  /**
   A request that nobody decided in time is lost: from its deadline on a reader is told it expired,
   every approval or rejection conflicts, and no claim for a decision is granted.
   */
  lemma ExpiresAtItsDeadline(ttl: Option<int>, calls: seq<Timed>, k: nat, id: Id, deadline: int, now: int, status: ApprovalStatus)
    requires Legal(ttl, calls) && Forward(calls) && CreatedAt(calls, k, id) && calls[|calls| - 1].now <= now
    requires calls[k].call.request.expiresAt == Some(deadline)
      || (calls[k].call.request.expiresAt.None? && ttl.Some? && deadline == calls[k].call.request.createdAt + ttl.value)
    requires UndecidedInTime(calls, k, |calls|, id, deadline) && deadline <= now && status in {Approved, Rejected}
    ensures Resolved(After(ttl, calls), id, status, now).1 == Raised(Conflict)
    ensures Claimed(After(ttl, calls), id, status, now).1 == Ok(None)
    ensures var store := Step(ttl, After(ttl, calls), Timed(Get(id), now)); id in store && store[id].request.status == Expired
  {
    NeverDecided(ttl, calls, k, |calls|, id, deadline);
    ReadTells(ttl, calls, k, id, now);
    DecisionAcceptedIff(ttl, calls, k, id, status, now);
    ClaimGrantedIff(ttl, calls, k, id, status, now);
    hide After, LifeAt, Legal, Resolved, Claimed, Step;
  }

  /** Before its deadline, and always without one, the first decision on a request is accepted. */
  lemma FirstDecisionAccepted(ttl: Option<int>, calls: seq<Timed>, k: nat, id: Id, now: int, status: ApprovalStatus)
    requires Legal(ttl, calls) && Forward(calls) && CreatedAt(calls, k, id) && calls[|calls| - 1].now <= now
    requires var request := calls[k].call.request;
      if request.expiresAt.Some? then now < request.expiresAt.value else ttl.Some? ==> now < request.createdAt + ttl.value
    requires forall j :: k < j < |calls| && calls[j].call.Resolve? && calls[j].call.id == id ==> !ApprovesOrRejects(calls[j].call.status)
    requires status in {Approved, Rejected}
    ensures Resolved(After(ttl, calls), id, status, now).1.Ok?
  {
    NoDecision(ttl, calls, k, |calls|, id);
    DecisionAcceptedIff(ttl, calls, k, id, status, now);
    hide After, LifeAt, Legal, Resolved;
  }

  lemma {:induction false} NoDecision(ttl: Option<int>, calls: seq<Timed>, k: nat, n: nat, id: Id)
    requires k < n <= |calls| && CreatedAt(calls, k, id)
    requires forall j :: k < j < n && calls[j].call.Resolve? && calls[j].call.id == id ==> !ApprovesOrRejects(calls[j].call.status)
    ensures LifeAt(ttl, calls, k, n, id).decision.None?
  {
    if n > k + 1 {
      NoDecision(ttl, calls, k, n - 1, id);
    }
  }

  /** Only approving and rejecting decide, and only what was created can be decided or claimed. */
  lemma UnknownRefused(store: Store, id: Id, status: ApprovalStatus, now: int)
    ensures !ApprovesOrRejects(status) ==> Resolved(store, id, status, now) == (store, Raised(BadStatus))
    ensures ApprovesOrRejects(status) && id !in store ==> Resolved(store, id, status, now) == (store, Raised(NotFound))
    ensures id !in store ==> Claimed(store, id, status, now) == (store, Raised(NotFound))
  {
  }
}
