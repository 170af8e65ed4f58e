/**
 What any run of operations leaves of a connection, told by the last operation that counts
 (backend/app/datasources/service.py:107-388, backend/app/datasources/store.py:130-215).
 */
module DataSourceHistory {
  import opened Common
  import opened DataSources

  predicate HasDeletion(ops: seq<Op>)
  {
    exists i :: 0 <= i < |ops| && ops[i].SoftDelete?
  }

  lemma {:induction false} DeletedIff(rec: Record, ops: seq<Op>)
    requires !rec.deleted
    ensures After(rec, ops).deleted <==> HasDeletion(ops)
  {
    if ops != [] {
      var n := |ops| - 1;
      DeletedIff(rec, ops[..n]);
      DeletionStep(ops);
    }
  }

  lemma DeletionStep(ops: seq<Op>)
    requires ops != []
    ensures HasDeletion(ops) <==> HasDeletion(ops[..|ops| - 1]) || ops[|ops| - 1].SoftDelete?
  {
    var n := |ops| - 1;
    if i :| 0 <= i < n && ops[i].SoftDelete? {
      assert ops[..n][i].SoftDelete?;
    }
    if HasDeletion(ops[..n]) {
      var i :| 0 <= i < n && ops[..n][i].SoftDelete?;
      assert ops[i].SoftDelete?;
    }
  }

  // ---- verified, active, disabled ----

  /** The operation leaves a verified or active connection what it is: a successful inspection, an update of nothing, an activation, or an enabling. */
  predicate Quiet(op: Op)
  {
    op == Inspect(false) || op == UpdateConfiguration(None) || op.Activate? || op.Enable?
  }

  /** Since this operation nothing happened but quiet ones, and whether one of them was an activation with an approved table. */
  predicate QuietSince(ops: seq<Op>, i: nat)
  {
    forall j :: i < j < |ops| ==> Quiet(ops[j])
  }

  predicate ActivatedSince(ops: seq<Op>, i: nat)
  {
    exists j :: i < j < |ops| && ops[j] == Activate(true)
  }

  ghost predicate Stands(ops: seq<Op>, i: nat, activated: bool)
  {
    i < |ops| && ops[i] == Verify(false, true) && QuietSince(ops, i) && (ActivatedSince(ops, i) <==> activated)
  }

  ghost predicate LastVerified(ops: seq<Op>, activated: bool)
  {
    exists i: nat :: Stands(ops, i, activated)
  }

  lemma StandsStep(ops: seq<Op>, i: nat, activated: bool)
    requires ops != [] && i < |ops| - 1
    ensures var front, last := ops[..|ops| - 1], ops[|ops| - 1];
      Stands(ops, i, activated) <==>
        Quiet(last) && (if last == Activate(true) then activated && (Stands(front, i, true) || Stands(front, i, false)) else Stands(front, i, activated))
  {
    var n := |ops| - 1;
    var front := ops[..n];
    assert forall j :: 0 <= j < n ==> front[j] == ops[j];
    if QuietSince(ops, i) {
      assert Quiet(ops[n]);
    }
    if ActivatedSince(ops, i) && ops[n] != Activate(true) {
      var j :| i < j < |ops| && ops[j] == Activate(true);
      assert front[j] == Activate(true);
    }
    if ActivatedSince(front, i) {
      var j :| i < j < |front| && front[j] == Activate(true);
      assert ops[j] == Activate(true);
    }
    hide Quiet;
  }

  lemma LastVerifiedStep(ops: seq<Op>, activated: bool)
    requires ops != []
    ensures var front, last := ops[..|ops| - 1], ops[|ops| - 1];
      LastVerified(ops, activated) <==>
        || (last == Verify(false, true) && !activated)
        || (Quiet(last) && if last == Activate(true) then activated && (LastVerified(front, true) || LastVerified(front, false)) else LastVerified(front, activated))
  {
    var n := |ops| - 1;
    var front, last := ops[..n], ops[n];
    assert Stands(ops, n, activated) <==> last == Verify(false, true) && !activated;
    forall i: nat, value | i < n
      ensures Stands(ops, i, value) <==>
        Quiet(last) && (if last == Activate(true) then value && (Stands(front, i, true) || Stands(front, i, false)) else Stands(front, i, value))
    {
      StandsStep(ops, i, value);
    }
    assert forall i: nat, value :: Stands(front, i, value) ==> i < n;
    assert forall i: nat :: Stands(ops, i, activated) ==> i <= n;
    hide Stands, Quiet;
    if i: nat :| Stands(ops, i, activated) {
      assert i < n || i == n;
    }
    if LastVerified(front, activated) {
      var i: nat :| Stands(front, i, activated);
      assert Quiet(last) && last != Activate(true) ==> Stands(ops, i, activated);
    }
    if value :| LastVerified(front, value) {
      var i: nat :| Stands(front, i, value);
      assert Quiet(last) && last == Activate(true) && activated ==> Stands(ops, i, activated);
    }
  }

  /**
   A connection shows as verified exactly when the last operation that counts was a successful
   read-only verification, and as active exactly when that was followed by an activation with an
   approved table; a failed test, a change, a refusal, a disabling or a deletion ends both.
   */
  lemma {:induction false} ActiveIff(rec: Record, ops: seq<Op>)
    requires !rec.deleted && rec.status !in {VerifiedReadOnly, Active}
    ensures After(rec, ops).status == Active <==> LastVerified(ops, true) && !HasDeletion(ops)
    ensures After(rec, ops).status == VerifiedReadOnly <==> LastVerified(ops, false) && !HasDeletion(ops)
  {
    if ops != [] {
      var n := |ops| - 1;
      ActiveIff(rec, ops[..n]);
      DeletedIff(rec, ops[..n]);
      DeletionStep(ops);
      DeletedStatus(rec, ops[..n]);
      LastVerifiedStep(ops, true);
      LastVerifiedStep(ops, false);
      NotBoth(ops[..n]);
      hide LastVerified, HasDeletion;
    }
  }

  lemma DeletedStatus(rec: Record, ops: seq<Op>)
    requires !rec.deleted
    ensures After(rec, ops).deleted ==> After(rec, ops).status == Deleted
  {
    DeletedOnlyIfDeleted(rec, ops);
  }

  lemma StandAlike(ops: seq<Op>, i: nat, j: nat, activated: bool, other: bool)
    requires Stands(ops, i, activated) && Stands(ops, j, other)
    ensures activated == other
  {
    if i != j {
      assert false;
    }
  }

  lemma NotBoth(ops: seq<Op>)
    ensures !(LastVerified(ops, true) && LastVerified(ops, false))
  {
    forall i: nat, j: nat
      ensures !(Stands(ops, i, true) && Stands(ops, j, false))
    {
      if Stands(ops, i, true) && Stands(ops, j, false) {
        StandAlike(ops, i, j, true, false);
      }
    }
    hide Stands;
  }

  /** The connection was disabled, and nothing since then led out of that. */
  ghost predicate LastDisabled(ops: seq<Op>)
  {
    exists i :: 0 <= i < |ops| && ops[i].Disable? && forall j :: i < j < |ops| ==> KeepsDisabled(ops[j])
  }

  lemma LastDisabledStep(ops: seq<Op>)
    requires ops != []
    ensures var last := ops[|ops| - 1];
      LastDisabled(ops) <==> last.Disable? || (LastDisabled(ops[..|ops| - 1]) && KeepsDisabled(last))
  {
    var n := |ops| - 1;
    var front := ops[..n];
    assert forall j :: 0 <= j < n ==> front[j] == ops[j];
    if LastDisabled(front) && KeepsDisabled(ops[n]) {
      var i :| 0 <= i < n && front[i].Disable? && forall j :: i < j < n ==> KeepsDisabled(front[j]);
      assert ops[i].Disable?;
    }
    if i :| 0 <= i < n && ops[i].Disable? && forall j :: i < j < |ops| ==> KeepsDisabled(ops[j]) {
      assert front[i].Disable?;
    }
  }

  /** A connection shows as disabled exactly when it was disabled and nothing since led out of it. */
  lemma {:induction false} DisabledIff(rec: Record, ops: seq<Op>)
    requires !rec.deleted && rec.status != Disabled
    ensures After(rec, ops).status == Disabled <==> LastDisabled(ops) && !HasDeletion(ops)
  {
    if ops != [] {
      var n := |ops| - 1;
      DisabledIff(rec, ops[..n]);
      DeletedIff(rec, ops[..n]);
      DeletionStep(ops);
      DeletedStatus(rec, ops[..n]);
      LastDisabledStep(ops);
      hide LastDisabled, HasDeletion;
    }
  }

  // ---- what is stored ----

  function LastSettings(ops: seq<Op>, before: string): string
  {
    if ops == [] then before
    else
      var last := ops[|ops| - 1];
      if last.UpdateConfiguration? && last.settings.Some? then last.settings.value else LastSettings(ops[..|ops| - 1], before)
  }

  function LastSecret(ops: seq<Op>, before: string): string
  {
    if ops == [] then before
    else
      var last := ops[|ops| - 1];
      if last.ReplaceCredentials? then last.secret else LastSecret(ops[..|ops| - 1], before)
  }

  function CountChanges(ops: seq<Op>): nat
  {
    if ops == [] then 0
    else
      var last := ops[|ops| - 1];
      CountChanges(ops[..|ops| - 1]) + if (last.UpdateConfiguration? && last.settings.Some?) || last.ReplaceCredentials? then 1 else 0
  }

  /** After any run a connection has the settings and the password last given to it, and a version for every time one was. */
  lemma {:induction false} ContentsAreTheLastGiven(rec: Record, ops: seq<Op>)
    requires !rec.deleted && !HasDeletion(ops)
    ensures var rec' := After(rec, ops);
      && rec'.workspace == rec.workspace
      && rec'.settings == LastSettings(ops, rec.settings) && rec'.secret == LastSecret(ops, rec.secret)
      && rec'.version == rec.version + CountChanges(ops)
  {
    if ops != [] {
      var n := |ops| - 1;
      DeletionStep(ops);
      ContentsAreTheLastGiven(rec, ops[..n]);
      DeletedIff(rec, ops[..n]);
      hide HasDeletion;
    }
  }

  /** A deleted connection is never changed again. */
  lemma {:induction false} DeletedStays(rec: Record, ops: seq<Op>, more: seq<Op>)
    requires After(rec, ops).deleted
    ensures After(rec, ops + more) == After(rec, ops)
    decreases |more|
  {
    if more == [] {
      assert ops + more == ops;
    } else {
      var n := |more| - 1;
      assert (ops + more)[..|ops| + n] == ops + more[..n];
      DeletedStays(rec, ops, more[..n]);
    }
  }

  // ---- tenants ----

  /** An operation finds a connection only for its own workspace and while it is not deleted; otherwise it changes nothing. No other connection changes in any case. */
  lemma OnlyTheTenantsOwn(records: map<string, Record>, workspace: string, id: string, op: Op, other: string)
    ensures var (records', verdict) := Performed(records, workspace, id, op);
      && (verdict == Rejected(NotFound) <==> id !in records || records[id].workspace != workspace || records[id].deleted)
      && (verdict == Rejected(NotFound) ==> records' == records)
      && records'.Keys == records.Keys
      && (other in records && (other != id || records[other].workspace != workspace) ==> records'[other] == records[other])
  {
  }

  /** A connection is activated exactly when it shows as verified and a table of it was approved. */
  lemma ActivatesIff(rec: Record, approvedTable: bool)
    ensures Outcome(rec, Activate(approvedTable)) == Done <==> rec.status == VerifiedReadOnly && approvedTable
    ensures Outcome(rec, Activate(approvedTable)) == Done ==> Applied(rec, Activate(approvedTable)) == rec.(status := Active)
    ensures Outcome(rec, Activate(approvedTable)) != Done ==>
      && Applied(rec, Activate(approvedTable)) == rec
      && Outcome(rec, Activate(approvedTable)) == Rejected(if rec.status == VerifiedReadOnly then NoApprovedTable else NotVerified)
  {
  }

  /** The operation is a test, a verification or an inspection that found something wrong. */
  predicate Fails(op: Op)
  {
    op == Inspect(true) || (op.Test? && (op.refused || !op.success)) || (op.Verify? && (op.refused || !op.readOnly))
  }

  /** What one operation shows: a passed test as testing, anything found wrong as failed, a change or an enabling as pending. */
  lemma StatusShows(rec: Record, op: Op)
    ensures var status := Applied(rec, op).status;
      && (op == Test(false, true) ==> status == Testing)
      && (Fails(op) ==> status == Failed)
      && (op.ReplaceCredentials? || (op.UpdateConfiguration? && op.settings.Some?) || (op.Enable? && rec.status == Disabled) ==> status == Pending)
      && (op.Disable? ==> status == Disabled)
      && (op.SoftDelete? ==> status == Status.Deleted && Applied(rec, op).deleted)
      && (!op.SoftDelete? ==> Applied(rec, op).deleted == rec.deleted)
      && (op.Enable? ==> Outcome(rec, op) == if rec.status == Disabled then Done else Rejected(NotDisabled))
      && (op == Inspect(true) || ((op.Test? || op.Verify?) && op.refused) ==> Outcome(rec, op) == Rejected(ConnectionRefused))
  {
  }
}
