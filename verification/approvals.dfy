/**
 Approval requests and the checkpoints they resume from (backend/app/security/approvals.py).
 Every operation of the store runs under one lock, so each is one step on a map.
 */
module Approvals {
  import opened Common
  import opened AgentStates

  type Id = nat

  datatype ApprovalStatus = Pending | Approved | Rejected | Expired | Cancelled

  datatype ApprovalRequest = ApprovalRequest(
    runId: string, fingerprint: Request, createdAt: int, expiresAt: Option<int>,
    status: ApprovalStatus, resolvedAt: Option<int>, startedAt: Option<int>, completedAt: Option<int>)

  datatype Checkpoint = Checkpoint(state: RunState, action: Request, fingerprint: Request)

  datatype Record = Record(request: ApprovalRequest, checkpoint: Checkpoint)

  datatype Error = NotFound | Conflict | BadStatus

  type Store = map<Id, Record>

  // ---- what each operation does to the store ----

  function Created(store: Store, ttl: Option<int>, id: Id, request: ApprovalRequest, checkpoint: Checkpoint): Store
  {
    var expiresAt := if ttl.Some? && request.expiresAt.None? then Some(request.createdAt + ttl.value) else request.expiresAt;
    store[id := Record(request.(expiresAt := expiresAt), checkpoint)]
  }

  predicate Overdue(request: ApprovalRequest, now: int)
  {
    request.status == Pending && request.expiresAt.Some? && request.expiresAt.value <= now
  }

  function Aged(record: Record, now: int): Record
  {
    if Overdue(record.request, now) then record.(request := record.request.(status := Expired, resolvedAt := Some(now))) else record
  }

  function Seen(store: Store, id: Id, now: int): Store
  {
    if id in store then store[id := Aged(store[id], now)] else store
  }

  function SeenForRun(store: Store, runId: string, now: int): Store
  {
    map id | id in store :: if store[id].request.runId == runId then Aged(store[id], now) else store[id]
  }

  function Resolved(store: Store, id: Id, status: ApprovalStatus, now: int): (Store, Result<ApprovalRequest, Error>)
  {
    if status != Approved && status != Rejected then (store, Raised(BadStatus))
    else if id !in store then (store, Raised(NotFound))
    else
      var seen := Seen(store, id, now);
      var request := seen[id].request;
      if request.status == status then (seen, Ok(request))
      else if request.status != Pending then (seen, Raised(Conflict))
      else
        var resolved := request.(status := status, resolvedAt := Some(now));
        (seen[id := seen[id].(request := resolved)], Ok(resolved))
  }

  /** The status a resumer asks for is reached and nobody has started on it. */
  predicate Claimable(store: Store, id: Id, expected: ApprovalStatus, now: int)
  {
    id in store && Aged(store[id], now).request.status == expected && store[id].request.startedAt.None?
  }

  function Claimed(store: Store, id: Id, expected: ApprovalStatus, now: int): (Store, Result<Option<Record>, Error>)
  {
    if id !in store then (store, Raised(NotFound))
    else
      var seen := Seen(store, id, now);
      if !Claimable(store, id, expected, now) then (seen, Ok(None))
      else
        var started := seen[id].(request := seen[id].request.(startedAt := Some(now)));
        (seen[id := started], Ok(Some(started)))
  }

  function Finished(store: Store, id: Id, state: RunState, now: int): (Store, Result<bool, Error>)
  {
    if id !in store then (store, Raised(NotFound))
    else
      var record := store[id];
      (store[id := Record(record.request.(completedAt := Some(now)), record.checkpoint.(state := state))], Ok(true))
  }

  // ---- listing ----

  function OfRun(store: Store, runId: string): set<Id>
  {
    set id | id in store && store[id].request.runId == runId
  }

  /** Insert after every request that is no younger. */
  function Placed(store: Store, sorted: seq<Id>, id: Id): seq<Id>
    requires id in store && forall i :: 0 <= i < |sorted| ==> sorted[i] in store
  {
    if sorted == [] then [id]
    else
      var n := |sorted| - 1;
      if store[sorted[n]].request.createdAt <= store[id].request.createdAt then sorted + [id]
      else Placed(store, sorted[..n], id) + [sorted[n]]
  }

  /** Python's sort by creation time. */
  function ByCreation(store: Store, ids: seq<Id>): (sorted: seq<Id>)
    requires forall i :: 0 <= i < |ids| ==> ids[i] in store
    ensures forall i :: 0 <= i < |sorted| ==> sorted[i] in store
  {
    if ids == [] then []
    else
      PlacedKnown(store, ByCreation(store, ids[..|ids| - 1]), ids[|ids| - 1]);
      Placed(store, ByCreation(store, ids[..|ids| - 1]), ids[|ids| - 1])
  }

  lemma {:induction false} PlacedKnown(store: Store, sorted: seq<Id>, id: Id)
    requires id in store && forall i :: 0 <= i < |sorted| ==> sorted[i] in store
    ensures forall i :: 0 <= i < |Placed(store, sorted, id)| ==> Placed(store, sorted, id)[i] in store
  {
    if sorted != [] {
      PlacedKnown(store, sorted[..|sorted| - 1], id);
    }
  }

  /** The list names exactly the chosen requests, each once, the oldest first. */
  ghost predicate Lists(store: Store, ids: seq<Id>, chosen: set<Id>)
  {
    && chosen <= store.Keys
    && (forall id :: id in chosen <==> id in ids)
    && (forall i, j :: 0 <= i < j < |ids| ==>
        ids[i] != ids[j] && ids[i] in store && ids[j] in store && store[ids[i]].request.createdAt <= store[ids[j]].request.createdAt)
  }

  lemma ListedKnown(store: Store, ids: seq<Id>, chosen: set<Id>)
    requires Lists(store, ids, chosen)
    ensures forall i :: 0 <= i < |ids| ==> ids[i] in store
  {
    assert forall i :: 0 <= i < |ids| ==> ids[i] in ids;
  }

  lemma ListMore(store: Store, ids: seq<Id>, chosen: set<Id>, last: Id)
    requires Lists(store, ids, chosen) && last in store && last !in chosen
    requires forall id :: id in chosen ==> store[id].request.createdAt <= store[last].request.createdAt
    ensures Lists(store, ids + [last], chosen + {last})
  {
    ListedKnown(store, ids, chosen);
    var more := ids + [last];
    assert forall i :: 0 <= i < |ids| ==> ids[i] in chosen;
    assert forall id :: id in more <==> id in ids || id == last;
  }

  lemma ListLess(store: Store, ids: seq<Id>, chosen: set<Id>)
    requires Lists(store, ids, chosen) && ids != []
    ensures var n := |ids| - 1;
      && ids[n] in chosen && Lists(store, ids[..n], chosen - {ids[n]})
      && forall id :: id in chosen ==> store[id].request.createdAt <= store[ids[n]].request.createdAt
  {
    var n := |ids| - 1;
    ListedKnown(store, ids, chosen);
    assert ids[n] in ids;
    assert ids == ids[..n] + [ids[n]];
    assert forall id :: id in ids <==> id in ids[..n] || id == ids[n];
    forall id | id in chosen
      ensures store[id].request.createdAt <= store[ids[n]].request.createdAt
    {
      var i :| 0 <= i < |ids| && ids[i] == id;
    }
  }

  lemma {:induction false} PlacedLists(store: Store, ids: seq<Id>, chosen: set<Id>, id: Id)
    requires Lists(store, ids, chosen) && id in store && id !in chosen
    ensures (forall i :: 0 <= i < |ids| ==> ids[i] in store) && Lists(store, Placed(store, ids, id), chosen + {id})
  {
    ListedKnown(store, ids, chosen);
    if ids == [] {
      assert chosen == {};
      ListMore(store, ids, chosen, id);
      assert ids + [id] == [id];
    } else {
      var n := |ids| - 1;
      var last := ids[n];
      ListLess(store, ids, chosen);
      if store[last].request.createdAt <= store[id].request.createdAt {
        ListMore(store, ids, chosen, id);
      } else {
        PlacedLists(store, ids[..n], chosen - {last}, id);
        hide Lists, Placed;
        ListMore(store, Placed(store, ids[..n], id), chosen - {last} + {id}, last);
        assert chosen - {last} + {id} + {last} == chosen + {id};
        PlacedUnfolds(store, ids, id);
      }
    }
  }

  lemma PlacedUnfolds(store: Store, ids: seq<Id>, id: Id)
    requires id in store && ids != [] && forall i :: 0 <= i < |ids| ==> ids[i] in store
    ensures var n := |ids| - 1;
      store[ids[n]].request.createdAt > store[id].request.createdAt ==> Placed(store, ids, id) == Placed(store, ids[..n], id) + [ids[n]]
  {
  }

  lemma {:induction false} ByCreationLists(store: Store, ids: seq<Id>)
    requires forall i :: 0 <= i < |ids| ==> ids[i] in store
    requires forall i, j :: 0 <= i < j < |ids| ==> ids[i] != ids[j]
    ensures Lists(store, ByCreation(store, ids), set i | 0 <= i < |ids| :: ids[i])
  {
    if ids != [] {
      var n := |ids| - 1;
      var front := ids[..n];
      ByCreationLists(store, front);
      var chosen := set i | 0 <= i < |front| :: front[i];
      PlacedLists(store, ByCreation(store, front), chosen, ids[n]);
      assert (set i | 0 <= i < |ids| :: ids[i]) == chosen + {ids[n]} by {
        assert forall i :: 0 <= i < n ==> front[i] == ids[i];
      }
    }
  }

  class FileApprovalStore {
    const ttl: Option<int>
    var entries: Store

    constructor (ttl: Option<int>)
      ensures this.ttl == ttl && entries == map[]
    {
      this.ttl := ttl;
      entries := map[];
    }

    method Create(id: Id, request: ApprovalRequest, checkpoint: Checkpoint)
      modifies this
      ensures entries == Created(old(entries), ttl, id, request, checkpoint)
    {
      var stored := request;
      if ttl.Some? && stored.expiresAt.None? {
        stored := stored.(expiresAt := Some(stored.createdAt + ttl.value));
      }
      entries := entries[id := Record(stored, checkpoint)];
    }

    method Expire(id: Id, now: int)
      requires id in entries
      modifies this
      ensures entries == Seen(old(entries), id, now)
    {
      var request := entries[id].request;
      if request.status == Pending && request.expiresAt.Some? && request.expiresAt.value <= now {
        entries := entries[id := entries[id].(request := request.(status := Expired, resolvedAt := Some(now)))];
      }
    }

    method Get(id: Id, now: int) returns (request: Option<ApprovalRequest>)
      modifies this
      ensures entries == Seen(old(entries), id, now)
      ensures request == if id in entries then Some(entries[id].request) else None
    {
      if id !in entries {
        return None;
      }
      Expire(id, now);
      return Some(entries[id].request);
    }

    /** The run's requests, aged, the oldest first. */
    method ListForRun(runId: string, now: int) returns (ids: seq<Id>, requests: seq<ApprovalRequest>)
      modifies this
      ensures entries == SeenForRun(old(entries), runId, now)
      ensures Lists(entries, ids, OfRun(entries, runId))
      ensures |requests| == |ids| && forall i :: 0 <= i < |ids| ==> requests[i] == entries[ids[i]].request
    {
      var found := CollectForRun(runId, now);
      ids := ByCreation(entries, found);
      ByCreationLists(entries, found);
      assert OfRun(entries, runId) == set i | 0 <= i < |found| :: found[i];
      ListedKnown(entries, ids, OfRun(entries, runId));
      var stored := entries;
      requests := seq(|ids|, i requires 0 <= i < |ids| => stored[ids[i]].request);
    }

    method CollectForRun(runId: string, now: int) returns (found: seq<Id>)
      modifies this
      ensures entries == SeenForRun(old(entries), runId, now)
      ensures forall id :: id in found <==> id in entries && entries[id].request.runId == runId
      ensures forall i, j :: 0 <= i < j < |found| ==> found[i] != found[j]
    {
      var pending := entries.Keys;
      found := [];
      while pending != {}
        invariant pending <= old(entries).Keys == entries.Keys
        invariant forall id :: id in entries ==>
          entries[id] == if id in pending then old(entries)[id] else SeenForRun(old(entries), runId, now)[id]
        invariant forall id :: id in found <==> id in old(entries) && id !in pending && old(entries)[id].request.runId == runId
        invariant forall i, j :: 0 <= i < j < |found| ==> found[i] != found[j]
      {
        var id :| id in pending;
        pending := pending - {id};
        if entries[id].request.runId == runId {
          Expire(id, now);
          found := found + [id];
        }
      }
      assert entries == SeenForRun(old(entries), runId, now);
    }

    method Resolve(id: Id, status: ApprovalStatus, now: int) returns (result: Result<ApprovalRequest, Error>)
      modifies this
      ensures (entries, result) == Resolved(old(entries), id, status, now)
    {
      if status != Approved && status != Rejected {
        return Raised(BadStatus);
      }
      if id !in entries {
        return Raised(NotFound);
      }
      Expire(id, now);
      var request := entries[id].request;
      if request.status == status {
        return Ok(request);
      }
      if request.status != Pending {
        return Raised(Conflict);
      }
      request := request.(status := status, resolvedAt := Some(now));
      entries := entries[id := entries[id].(request := request)];
      return Ok(request);
    }

    method Claim(id: Id, expected: ApprovalStatus, now: int) returns (result: Result<Option<Record>, Error>)
      modifies this
      ensures (entries, result) == Claimed(old(entries), id, expected, now)
    {
      if id !in entries {
        return Raised(NotFound);
      }
      Expire(id, now);
      var record := entries[id];
      if record.request.status != expected || record.request.startedAt.Some? {
        return Ok(None);
      }
      record := record.(request := record.request.(startedAt := Some(now)));
      entries := entries[id := record];
      return Ok(Some(record));
    }

    method CompleteExecution(id: Id, state: RunState, now: int) returns (result: Result<bool, Error>)
      modifies this
      ensures (entries, result) == Finished(old(entries), id, state, now)
    {
      if id !in entries {
        return Raised(NotFound);
      }
      var record := entries[id];
      entries := entries[id := Record(record.request.(completedAt := Some(now)), record.checkpoint.(state := state))];
      return Ok(true);
    }
  }

  // ---- what any history of calls keeps ----

  datatype Call =
    | Create(id: Id, request: ApprovalRequest, checkpoint: Checkpoint)
    | Get(id: Id)
    | List(runId: string)
    | Resolve(id: Id, status: ApprovalStatus)
    | Claim(id: Id, expected: ApprovalStatus)
    | Complete(id: Id, state: RunState)

  datatype Timed = Timed(call: Call, now: int)

  function Step(ttl: Option<int>, store: Store, timed: Timed): Store
  {
    match timed.call
    case Create(id, request, checkpoint) => Created(store, ttl, id, request, checkpoint)
    case Get(id) => Seen(store, id, timed.now)
    case List(runId) => SeenForRun(store, runId, timed.now)
    case Resolve(id, status) => Resolved(store, id, status, timed.now).0
    case Claim(id, expected) => Claimed(store, id, expected, timed.now).0
    case Complete(id, state) => Finished(store, id, state, timed.now).0
  }

  function After(ttl: Option<int>, calls: seq<Timed>): Store
  {
    if calls == [] then map[] else Step(ttl, After(ttl, calls[..|calls| - 1]), calls[|calls| - 1])
  }

  /** New requests come with a new identifier, pending and not started. */
  predicate Legal(ttl: Option<int>, calls: seq<Timed>)
  {
    forall k :: 0 <= k < |calls| && calls[k].call.Create? ==>
      && calls[k].call.id !in After(ttl, calls[..k])
      && calls[k].call.request.status == Pending && calls[k].call.request.startedAt.None?
  }

  /** The claim at this point of the history is granted. */
  predicate Grants(ttl: Option<int>, calls: seq<Timed>, k: nat, id: Id)
    requires k < |calls|
  {
    calls[k].call.Claim? && calls[k].call.id == id && Claimable(After(ttl, calls[..k]), id, calls[k].call.expected, calls[k].now)
  }

  /** The call turns a pending request into this status. */
  predicate Decides(ttl: Option<int>, calls: seq<Timed>, k: nat, id: Id, status: ApprovalStatus)
    requires k < |calls|
  {
    var store := After(ttl, calls[..k]);
    && calls[k].call == Resolve(id, status) && (status == Approved || status == Rejected)
    && id in store && store[id].request.status == Pending && !Overdue(store[id].request, calls[k].now)
  }

  ghost predicate EverGranted(ttl: Option<int>, calls: seq<Timed>, id: Id)
  {
    exists k :: 0 <= k < |calls| && Grants(ttl, calls, k, id)
  }

  ghost predicate EverDecided(ttl: Option<int>, calls: seq<Timed>, id: Id, status: ApprovalStatus)
  {
    exists k :: 0 <= k < |calls| && Decides(ttl, calls, k, id, status)
  }

  /** What a stored request says of the history: decided by a call, started by a granted claim. */
  ghost predicate Explained(ttl: Option<int>, calls: seq<Timed>, id: Id, request: ApprovalRequest)
  {
    && (request.startedAt.Some? <==> EverGranted(ttl, calls, id))
    && (request.status == Approved <==> EverDecided(ttl, calls, id, Approved))
    && (request.status == Rejected <==> EverDecided(ttl, calls, id, Rejected))
  }

  lemma EarlierCall(ttl: Option<int>, calls: seq<Timed>, n: nat, k: nat, id: Id)
    requires k < n <= |calls|
    ensures Grants(ttl, calls, k, id) == Grants(ttl, calls[..n], k, id)
    ensures forall status :: Decides(ttl, calls, k, id, status) == Decides(ttl, calls[..n], k, id, status)
  {
    hide After;
    assert calls[..n][..k] == calls[..k] && calls[..n][k] == calls[k];
  }

  lemma GrantedStep(ttl: Option<int>, calls: seq<Timed>, id: Id)
    requires calls != []
    ensures EverGranted(ttl, calls, id) <==> EverGranted(ttl, calls[..|calls| - 1], id) || Grants(ttl, calls, |calls| - 1, id)
  {
    var n := |calls| - 1;
    forall k | 0 <= k < n
      ensures Grants(ttl, calls, k, id) == Grants(ttl, calls[..n], k, id)
    {
      EarlierCall(ttl, calls, n, k, id);
    }
    hide Grants;
    if EverGranted(ttl, calls[..n], id) {
      var k :| 0 <= k < n && Grants(ttl, calls[..n], k, id);
      assert Grants(ttl, calls, k, id);
    }
  }

  lemma DecidedStep(ttl: Option<int>, calls: seq<Timed>, id: Id, status: ApprovalStatus)
    requires calls != []
    ensures EverDecided(ttl, calls, id, status) <==>
      EverDecided(ttl, calls[..|calls| - 1], id, status) || Decides(ttl, calls, |calls| - 1, id, status)
  {
    var n := |calls| - 1;
    forall k | 0 <= k < n
      ensures Decides(ttl, calls, k, id, status) == Decides(ttl, calls[..n], k, id, status)
    {
      EarlierCall(ttl, calls, n, k, id);
    }
    hide Decides;
    if EverDecided(ttl, calls[..n], id, status) {
      var k :| 0 <= k < n && Decides(ttl, calls[..n], k, id, status);
      assert Decides(ttl, calls, k, id, status);
    }
  }

  /** How one call changes one request: only pending ones are decided, and starting is for ever. */
  lemma OneCall(ttl: Option<int>, store: Store, timed: Timed, id: Id)
    requires timed.call.Create? ==> timed.call.id !in store && timed.call.request.status == Pending && timed.call.request.startedAt.None?
    requires id in Step(ttl, store, timed)
    ensures var request := Step(ttl, store, timed)[id].request;
      if id !in store then request.status == Pending && request.startedAt.None?
      else
        var was := store[id].request;
        && (request.startedAt.Some? <==>
            was.startedAt.Some? || (timed.call.Claim? && timed.call.id == id && Claimable(store, id, timed.call.expected, timed.now)))
        && (was.status != Pending ==> request.status == was.status)
        && (was.status == Pending ==>
            request.status == if timed.call.Resolve? && timed.call.id == id && timed.call.status in {Approved, Rejected} && !Overdue(was, timed.now)
                              then timed.call.status else request.status)
        && (was.status == Pending && request.status in {Approved, Rejected} ==>
            timed.call.Resolve? && timed.call.id == id && timed.call.status == request.status && !Overdue(was, timed.now))
  {
    match timed.call
    case Claim(_, _) =>
    case Resolve(_, _) =>
    case _ =>
  }

  lemma {:induction false} StoreExplained(ttl: Option<int>, calls: seq<Timed>, id: Id)
    requires Legal(ttl, calls)
    ensures id !in After(ttl, calls) ==>
      !EverGranted(ttl, calls, id) && !EverDecided(ttl, calls, id, Approved) && !EverDecided(ttl, calls, id, Rejected)
    ensures id in After(ttl, calls) ==> Explained(ttl, calls, id, After(ttl, calls)[id].request)
  {
    if calls != [] {
      var front, last := calls[..|calls| - 1], calls[|calls| - 1];
      LegalFront(ttl, calls);
      StoreExplained(ttl, front, id);
      GrantedStep(ttl, calls, id);
      DecidedStep(ttl, calls, id, Approved);
      DecidedStep(ttl, calls, id, Rejected);
      var store := After(ttl, front);
      if id in store {
        StaysStored(ttl, store, last, id);
      }
      if id in Step(ttl, store, last) {
        OneCall(ttl, store, last, id);
      }
      assert After(ttl, calls) == Step(ttl, store, last);
      hide Step, Legal, EverGranted, EverDecided, After;
    }
  }

  lemma StaysStored(ttl: Option<int>, store: Store, timed: Timed, id: Id)
    requires id in store
    ensures id in Step(ttl, store, timed)
  {
  }

  lemma LegalFront(ttl: Option<int>, calls: seq<Timed>)
    requires Legal(ttl, calls) && calls != []
    ensures Legal(ttl, calls[..|calls| - 1])
    ensures var last := calls[|calls| - 1].call;
      last.Create? ==> last.id !in After(ttl, calls[..|calls| - 1]) && last.request.status == Pending && last.request.startedAt.None?
  {
    hide After;
    var front := calls[..|calls| - 1];
    forall k | 0 <= k < |front| && front[k].call.Create?
      ensures front[k].call.id !in After(ttl, front[..k]) && front[k].call.request.status == Pending && front[k].call.request.startedAt.None?
    {
      assert front[..k] == calls[..k] && front[k] == calls[k];
    }
  }

  lemma LegalPrefix(ttl: Option<int>, calls: seq<Timed>, n: nat)
    requires Legal(ttl, calls) && n <= |calls|
    ensures Legal(ttl, calls[..n])
    decreases |calls|
  {
    if n < |calls| {
      LegalFront(ttl, calls);
      assert calls[..|calls| - 1][..n] == calls[..n];
      LegalPrefix(ttl, calls[..|calls| - 1], n);
    } else {
      assert calls[..n] == calls;
    }
  }

  /**
   Whoever calls, in whatever order: a claim is granted exactly when the request was decided that
   way by an earlier call and no earlier claim of it was granted.
   */
  lemma GrantedIff(ttl: Option<int>, calls: seq<Timed>, n: nat, id: Id, expected: ApprovalStatus)
    requires Legal(ttl, calls) && n < |calls| && calls[n].call == Claim(id, expected) && expected in {Approved, Rejected}
    ensures Grants(ttl, calls, n, id) <==>
      && (exists k :: 0 <= k < n && Decides(ttl, calls, k, id, expected))
      && (forall k :: 0 <= k < n ==> !Grants(ttl, calls, k, id))
  {
    LegalPrefix(ttl, calls, n);
    var front := calls[..n];
    StoreExplained(ttl, front, id);
    forall k | 0 <= k < n
      ensures Grants(ttl, calls, k, id) == Grants(ttl, front, k, id)
      ensures Decides(ttl, calls, k, id, expected) == Decides(ttl, front, k, id, expected)
    {
      EarlierCall(ttl, calls, n, k, id);
    }
    assert Grants(ttl, calls, n, id) <==> Claimable(After(ttl, front), id, expected, calls[n].now);
    assert Claimable(After(ttl, front), id, expected, calls[n].now) <==>
      id in After(ttl, front) && After(ttl, front)[id].request.status == expected && After(ttl, front)[id].request.startedAt.None?;
    hide Decides, Grants, After, Legal, Claimable;
    if k :| 0 <= k < n && Decides(ttl, calls, k, id, expected) {
      assert Decides(ttl, front, k, id, expected);
    }
    if k :| 0 <= k < n && Decides(ttl, front, k, id, expected) {
      assert Decides(ttl, calls, k, id, expected);
    }
  }

  /** One request is decided at most once, so it is never both approved and rejected. */
  lemma DecidedOnce(ttl: Option<int>, calls: seq<Timed>, i: nat, j: nat, id: Id, status: ApprovalStatus, other: ApprovalStatus)
    requires Legal(ttl, calls) && i < j < |calls| && Decides(ttl, calls, i, id, status)
    ensures !Decides(ttl, calls, j, id, other)
  {
    LegalPrefix(ttl, calls, j);
    StoreExplained(ttl, calls[..j], id);
    assert calls[..j][..i] == calls[..i] && calls[..j][i] == calls[i];
    assert Decides(ttl, calls[..j], i, id, status);
  }
}
