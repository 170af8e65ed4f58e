/**
 The life of a data source connection: tested, verified, activated, edited, disabled, deleted
 (backend/app/datasources/service.py over backend/app/datasources/store.py). Operations run one after
 another; what a probe of the live database finds is a parameter.
 */
module DataSources {
  import opened Common
  import Pool

  datatype Status = Pending | Testing | VerifiedReadOnly | Active | Failed | Disabled | Deleted

  datatype Record = Record(workspace: string, status: Status, version: nat, settings: string, secret: string, deleted: bool)

  datatype Error = NotFound | ConnectionRefused | NotVerified | NoApprovedTable | NotDisabled

  /** How a call comes back: normally, or by raising. */
  datatype Verdict = Done | Rejected(error: Error)

  /** `refused` says that building a runtime for the connection is refused by a security guard. */
  datatype Op =
    | Test(refused: bool, success: bool)
    | Verify(refused: bool, readOnly: bool)
    | Inspect(refused: bool)
    | Activate(approvedTable: bool)
    | UpdateConfiguration(settings: Option<string>)
    | ReplaceCredentials(secret: string)
    | Disable
    | Enable
    | SoftDelete

  // ---- what each operation does to a connection that exists ----

  function Outcome(rec: Record, op: Op): Verdict
  {
    match op
    case Test(refused, _) => if refused then Rejected(ConnectionRefused) else Done
    case Verify(refused, _) => if refused then Rejected(ConnectionRefused) else Done
    case Inspect(refused) => if refused then Rejected(ConnectionRefused) else Done
    case Activate(approved) =>
      if rec.status != VerifiedReadOnly then Rejected(NotVerified) else if !approved then Rejected(NoApprovedTable) else Done
    case Enable => if rec.status != Disabled then Rejected(NotDisabled) else Done
    case _ => Done
  }

  function Applied(rec: Record, op: Op): Record
  {
    match op
    case Test(refused, success) => rec.(status := if !refused && success then Testing else Failed)
    case Verify(refused, readOnly) => rec.(status := if !refused && readOnly then VerifiedReadOnly else Failed)
    case Inspect(refused) => if refused then rec.(status := Failed) else rec
    case Activate(_) => if Outcome(rec, op).Done? then rec.(status := Active) else rec
    case UpdateConfiguration(settings) =>
      if settings.Some? then rec.(settings := settings.value, status := Pending, version := rec.version + 1) else rec
    case ReplaceCredentials(secret) => rec.(secret := secret, status := Pending, version := rec.version + 1)
    case Disable => rec.(status := Disabled)
    case Enable => if rec.status == Disabled then rec.(status := Pending) else rec
    case SoftDelete => rec.(status := Deleted, deleted := true)
  }

  predicate Visible(records: map<string, Record>, workspace: string, id: string)
  {
    id in records && records[id].workspace == workspace && !records[id].deleted
  }

  /** A connection that is missing, deleted or another tenant's is not found, and nothing changes. */
  function Performed(records: map<string, Record>, workspace: string, id: string, op: Op): (map<string, Record>, Verdict)
  {
    if !Visible(records, workspace, id) then (records, Rejected(NotFound))
    else (records[id := Applied(records[id], op)], Outcome(records[id], op))
  }

  // ---- the store and the service ----

  class DataSourceStore {
    var records: map<string, Record>

    constructor ()
      ensures records == map[]
    {
      records := map[];
    }

    method CreateConnection(id: string, workspace: string, settings: string, secret: string)
      requires id !in records
      modifies this
      ensures records == old(records)[id := Record(workspace, Pending, 1, settings, secret, false)]
    {
      records := records[id := Record(workspace, Pending, 1, settings, secret, false)];
    }

    method GetConnection(workspace: string, id: string) returns (found: Option<Record>)
      ensures found == if Visible(records, workspace, id) then Some(records[id]) else None
    {
      if id !in records || records[id].workspace != workspace || records[id].deleted {
        return None;
      }
      return Some(records[id]);
    }

    method UpdateConnectionStatus(workspace: string, id: string, status: Option<Status>) returns (result: Verdict)
      modifies this
      ensures Visible(old(records), workspace, id) ==>
        result.Done? && records == old(records)[id := if status.Some? then old(records)[id].(status := status.value) else old(records)[id]]
      ensures !Visible(old(records), workspace, id) ==> result == Rejected(NotFound) && records == old(records)
    {
      if id !in records || records[id].workspace != workspace || records[id].deleted {
        return Rejected(NotFound);
      }
      if status.Some? {
        records := records[id := records[id].(status := status.value)];
      } else {
        assert records == records[id := records[id]];
      }
      return Done;
    }

    method UpdateConnectionConfig(workspace: string, id: string, settings: Option<string>, secret: Option<string>) returns (result: Verdict)
      modifies this
      ensures Visible(old(records), workspace, id) ==>
        result.Done? && records == old(records)[id := Reconfigured(old(records)[id], settings, secret)]
      ensures !Visible(old(records), workspace, id) ==> result == Rejected(NotFound) && records == old(records)
    {
      if id !in records || records[id].workspace != workspace || records[id].deleted {
        return Rejected(NotFound);
      }
      var record := records[id];
      if settings.Some? {
        record := record.(settings := settings.value);
        record := record.(status := Pending);
        record := record.(version := record.version + 1);
      }
      if secret.Some? {
        record := record.(secret := secret.value);
        record := record.(status := Pending);
        record := record.(version := record.version + 1);
      }
      records := records[id := record];
      return Done;
    }

    method SoftDeleteConnection(workspace: string, id: string) returns (result: Verdict)
      modifies this
      ensures (records, result) == Performed(old(records), workspace, id, SoftDelete)
    {
      if id !in records || records[id].workspace != workspace || records[id].deleted {
        return Rejected(NotFound);
      }
      records := records[id := records[id].(status := Deleted, deleted := true)];
      return Done;
    }
  }

  /** The store can change settings and secret at once, which raises the version twice. */
  function Reconfigured(rec: Record, settings: Option<string>, secret: Option<string>): Record
  {
    var first := if settings.Some? then Applied(rec, UpdateConfiguration(settings)) else rec;
    if secret.Some? then Applied(first, ReplaceCredentials(secret.value)) else first
  }

  class DataSourceOnboardingService {
    const store: DataSourceStore
    const pool: Pool.DataSourceRuntimePool

    constructor (store: DataSourceStore, pool: Pool.DataSourceRuntimePool)
      ensures this.store == store && this.pool == pool
    {
      this.store, this.pool := store, pool;
    }

    /** Find the connection and build a runtime for it; a refusal is recorded on the connection. */
    method RuntimeFor(workspace: string, id: string, refused: bool) returns (result: Verdict)
      modifies store
      ensures (store.records, result) == Performed(old(store.records), workspace, id, Inspect(refused))
      ensures !refused ==> store.records == old(store.records)
    {
      var connection := store.GetConnection(workspace, id);
      if connection.None? {
        return Rejected(NotFound);
      }
      if refused {
        result := store.UpdateConnectionStatus(workspace, id, Some(Failed));
        return Rejected(ConnectionRefused);
      }
      assert store.records == store.records[id := store.records[id]];
      return Done;
    }

    method TestConnectivity(workspace: string, id: string, refused: bool, success: bool) returns (result: Verdict)
      modifies store
      ensures (store.records, result) == Performed(old(store.records), workspace, id, Test(refused, success))
    {
      result := RuntimeFor(workspace, id, refused);
      if result.Rejected? {
        return;
      }
      result := store.UpdateConnectionStatus(workspace, id, Some(if success then Testing else Failed));
    }

    method VerifyReadOnlyBehavior(workspace: string, id: string, refused: bool, readOnly: bool) returns (result: Verdict)
      modifies store
      ensures (store.records, result) == Performed(old(store.records), workspace, id, Verify(refused, readOnly))
    {
      result := RuntimeFor(workspace, id, refused);
      if result.Rejected? {
        return;
      }
      result := store.UpdateConnectionStatus(workspace, id, Some(if readOnly then VerifiedReadOnly else Failed));
    }

    method ActivateConnection(workspace: string, id: string, approvedTable: bool) returns (result: Verdict)
      modifies store
      ensures (store.records, result) == Performed(old(store.records), workspace, id, Activate(approvedTable))
    {
      var connection := store.GetConnection(workspace, id);
      if connection.None? {
        return Rejected(NotFound);
      }
      assert store.records == store.records[id := store.records[id]];
      if connection.value.status != VerifiedReadOnly {
        return Rejected(NotVerified);
      }
      if !approvedTable {
        return Rejected(NoApprovedTable);
      }
      result := store.UpdateConnectionStatus(workspace, id, Some(Active));
    }

    method Update(workspace: string, id: string, settings: Option<string>) returns (result: Verdict)
      modifies store, pool
      ensures (store.records, result) == Performed(old(store.records), workspace, id, UpdateConfiguration(settings))
      ensures pool.entries == if result.Done? && settings.Some? then Pool.Kept(old(pool.entries), workspace, id) else old(pool.entries)
    {
      result := store.UpdateConnectionConfig(workspace, id, settings, None);
      if result.Done? && settings.Some? {
        pool.Invalidate(workspace, id);
      }
    }

    method Replace(workspace: string, id: string, secret: string) returns (result: Verdict)
      modifies store, pool
      ensures (store.records, result) == Performed(old(store.records), workspace, id, ReplaceCredentials(secret))
      ensures pool.entries == if result.Done? then Pool.Kept(old(pool.entries), workspace, id) else old(pool.entries)
    {
      result := store.UpdateConnectionConfig(workspace, id, None, Some(secret));
      if result.Done? {
        pool.Invalidate(workspace, id);
      }
    }

    method DisableConnection(workspace: string, id: string) returns (result: Verdict)
      modifies store, pool
      ensures (store.records, result) == Performed(old(store.records), workspace, id, Disable)
      ensures pool.entries ==
        if result.Done? && old(store.records)[id].status != Disabled then Pool.Kept(old(pool.entries), workspace, id) else old(pool.entries)
    {
      var connection := store.GetConnection(workspace, id);
      if connection.None? {
        return Rejected(NotFound);
      }
      if connection.value.status == Disabled {
        assert store.records == store.records[id := store.records[id].(status := Disabled)];
        return Done;
      }
      result := store.UpdateConnectionStatus(workspace, id, Some(Disabled));
      pool.Invalidate(workspace, id);
    }

    method EnableConnection(workspace: string, id: string) returns (result: Verdict)
      modifies store
      ensures (store.records, result) == Performed(old(store.records), workspace, id, Enable)
    {
      var connection := store.GetConnection(workspace, id);
      if connection.None? {
        return Rejected(NotFound);
      }
      if connection.value.status != Disabled {
        assert store.records == store.records[id := store.records[id]];
        return Rejected(NotDisabled);
      }
      result := store.UpdateConnectionStatus(workspace, id, Some(Pending));
    }

    method Delete(workspace: string, id: string) returns (result: Verdict)
      modifies store, pool
      ensures (store.records, result) == Performed(old(store.records), workspace, id, SoftDelete)
      ensures pool.entries == if result.Done? then Pool.Kept(old(pool.entries), workspace, id) else old(pool.entries)
    {
      result := store.SoftDeleteConnection(workspace, id);
      if result.Done? {
        pool.Invalidate(workspace, id);
      }
    }
  }

  // ---- whole lives ----

  /** One connection through a run of operations; a deleted one is never found again. */
  function After(rec: Record, ops: seq<Op>): Record
  {
    if ops == [] then rec
    else
      var before := After(rec, ops[..|ops| - 1]);
      if before.deleted then before else Applied(before, ops[|ops| - 1])
  }

  /** The operation took effect and means that what was proved before no longer counts. */
  predicate Resets(before: Record, op: Op)
  {
    !before.deleted && (op.ReplaceCredentials? || (op.UpdateConfiguration? && op.settings.Some?) || (op.Enable? && before.status == Disabled))
  }

  predicate Verifies(before: Record, op: Op)
  {
    !before.deleted && op == Verify(false, true)
  }

  /** Some successful read-only verification comes after every configuration change, credential change and re-enabling. */
  ghost predicate VerifiedSince(rec: Record, ops: seq<Op>)
  {
    exists i :: 0 <= i < |ops| && Verifies(After(rec, ops[..i]), ops[i])
      && forall j :: i < j < |ops| ==> !Resets(After(rec, ops[..j]), ops[j])
  }

  lemma VerifiedSinceStep(rec: Record, ops: seq<Op>, op: Op)
    requires VerifiedSince(rec, ops) && !Resets(After(rec, ops), op)
    ensures VerifiedSince(rec, ops + [op])
  {
    var all := ops + [op];
    var i :| 0 <= i < |ops| && Verifies(After(rec, ops[..i]), ops[i]) && forall j :: i < j < |ops| ==> !Resets(After(rec, ops[..j]), ops[j]);
    assert all[..i] == ops[..i];
    forall j | i < j < |all| ensures !Resets(After(rec, all[..j]), all[j]) {
      assert all[..j] == ops[..j];
      assert j == |ops| ==> ops[..j] == ops;
    }
    assert Verifies(After(rec, all[..i]), all[i]);
  }

  /** Whatever was done to a connection, it shows as verified or active only on the strength of a verification that still counts. */
  lemma {:induction false} ActiveMeansVerified(rec: Record, ops: seq<Op>)
    requires rec.status !in {VerifiedReadOnly, Active}
    ensures After(rec, ops).status in {VerifiedReadOnly, Active} ==> VerifiedSince(rec, ops)
  {
    if ops != [] {
      var n := |ops| - 1;
      ActiveMeansVerified(rec, ops[..n]);
      assert ops == ops[..n] + [ops[n]];
      ActiveStep(rec, ops[..n], ops[n]);
    }
  }

  lemma ActiveStep(rec: Record, ops: seq<Op>, op: Op)
    requires After(rec, ops).status in {VerifiedReadOnly, Active} ==> VerifiedSince(rec, ops)
    ensures After(rec, ops + [op]).status in {VerifiedReadOnly, Active} ==> VerifiedSince(rec, ops + [op])
  {
    hide VerifiedSince;
    var before, all := After(rec, ops), ops + [op];
    assert all[..|ops|] == ops;
    if Verifies(before, op) {
      VerifiedNow(rec, ops, op);
    } else if VerifiedSince(rec, ops) && !Resets(before, op) {
      VerifiedSinceStep(rec, ops, op);
    }
  }

  lemma VerifiedNow(rec: Record, ops: seq<Op>, op: Op)
    requires Verifies(After(rec, ops), op)
    ensures VerifiedSince(rec, ops + [op])
  {
    var all := ops + [op];
    assert all[..|ops|] == ops && all[|ops|] == op;
  }

  /** Active is reached only from verified, in one step that had an approved table. */
  lemma OnlyActivationActivates(rec: Record, op: Op)
    requires !rec.deleted && Applied(rec, op).status == Active
    ensures rec.status == Active || (rec.status == VerifiedReadOnly && op == Activate(true))
  {
  }

  /** Versions never fall, and rise with every change of settings or secret, so a version names one of each. */
  lemma {:induction false} VersionNamesSettings(rec: Record, ops: seq<Op>, n: nat)
    requires n <= |ops|
    ensures After(rec, ops[..n]).version <= After(rec, ops).version
    ensures After(rec, ops[..n]).version == After(rec, ops).version ==>
      After(rec, ops[..n]).settings == After(rec, ops).settings && After(rec, ops[..n]).secret == After(rec, ops).secret
    ensures n < |ops| && !After(rec, ops[..n]).deleted && (ops[n].ReplaceCredentials? || (ops[n].UpdateConfiguration? && ops[n].settings.Some?)) ==>
      After(rec, ops[..n]).version < After(rec, ops).version
    decreases |ops|
  {
    if n == |ops| {
      assert ops[..n] == ops;
    } else {
      var last := |ops| - 1;
      assert ops[..last][..n] == ops[..n];
      VersionNamesSettings(rec, ops[..last], n);
    }
  }

  // ---- what disabling is worth ----

  /** The operations that leave a disabled connection disabled. */
  predicate KeepsDisabled(op: Op)
  {
    op.Disable? || op.Activate? || op == Inspect(false) || op == UpdateConfiguration(None)
  }

  /**
   A disabled connection stays disabled exactly as long as nobody tests it, verifies it, edits
   its settings or credentials, has it refused, enables or deletes it: enabling is not the only way out.
   */
  lemma {:induction false} StaysDisabledIff(rec: Record, ops: seq<Op>)
    requires rec.status == Disabled && !rec.deleted
    ensures AlwaysDisabled(rec, ops) <==> forall i :: 0 <= i < |ops| ==> KeepsDisabled(ops[i])
  {
    if ops == [] {
      assert forall n :: 0 <= n <= |ops| ==> ops[..n] == [];
    } else {
      var last := |ops| - 1;
      StaysDisabledIff(rec, ops[..last]);
      DisabledStep(rec, ops);
      DeletedOnlyIfDeleted(rec, ops[..last]);
      assert After(rec, ops[..last]).status == Disabled ==> (After(rec, ops).status == Disabled <==> KeepsDisabled(ops[last]));
      hide After, KeepsDisabled;
      assert AlwaysDisabled(rec, ops[..last]) ==> After(rec, ops[..last][..last]).status == Disabled;
      assert ops[..last][..last] == ops[..last];
      hide AlwaysDisabled;
      assert forall i :: 0 <= i < last ==> ops[..last][i] == ops[i];
    }
  }

  /** At no point of the run has the connection been anything but disabled. */
  predicate AlwaysDisabled(rec: Record, ops: seq<Op>)
  {
    forall n :: 0 <= n <= |ops| ==> After(rec, ops[..n]).status == Disabled
  }

  lemma DisabledStep(rec: Record, ops: seq<Op>)
    requires ops != []
    ensures AlwaysDisabled(rec, ops) <==> AlwaysDisabled(rec, ops[..|ops| - 1]) && After(rec, ops).status == Disabled
  {
    hide After;
    var last := |ops| - 1;
    assert ops[..|ops|] == ops;
    forall n | 0 <= n <= last
      ensures ops[..last][..n] == ops[..n]
    {
    }
    if AlwaysDisabled(rec, ops[..last]) && After(rec, ops).status == Disabled {
      forall n | 0 <= n <= |ops|
        ensures After(rec, ops[..n]).status == Disabled
      {
        if n <= last {
          assert After(rec, ops[..last][..n]).status == Disabled;
        }
      }
    }
    if AlwaysDisabled(rec, ops) {
      forall n | 0 <= n <= last
        ensures After(rec, ops[..last][..n]).status == Disabled
      {
        assert After(rec, ops[..n]).status == Disabled;
      }
    }
  }

  lemma {:induction false} DeletedOnlyIfDeleted(rec: Record, ops: seq<Op>)
    requires !rec.deleted
    ensures After(rec, ops).deleted ==> After(rec, ops).status == Deleted
  {
    if ops != [] {
      DeletedOnlyIfDeleted(rec, ops[..|ops| - 1]);
    }
  }

  /** A concrete way round: a disabled connection is verified and activated without ever being enabled. */
  lemma DisabledBecomesActive(rec: Record)
    requires rec.status == Disabled && !rec.deleted
    ensures After(rec, [Verify(false, true), Activate(true)]).status == Active
  {
    var ops := [Verify(false, true), Activate(true)];
    assert After(rec, ops[..0]) == rec;
    assert ops[..1][..0] == ops[..0] && After(rec, ops[..1]).status == VerifiedReadOnly;
    assert After(rec, ops) == Applied(After(rec, ops[..1]), ops[1]);
  }
}
