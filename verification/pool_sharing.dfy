/**
 Who shares a runtime with whom, told by workspace, source and version one by one
 (backend/app/datasources/pool.py:53-111).
 */
module PoolSharing {
  import opened Common
  import opened Pool

  /** The connection is of this workspace, source and version. */
  predicate IsOf(connection: Connection, workspace: string, source: string, version: nat)
  {
    connection.workspace == workspace && connection.source == source && connection.version == version
  }

  /** The runtime cached for a workspace's source at a version, if one is. */
  predicate CachedFor(s: State, workspace: string, source: string, version: nat, r: RuntimeId)
  {
    Key(workspace, source, version) in s.entries && s.entries[Key(workspace, source, version)] == r
  }

  /** No caller is handed a runtime of another workspace, another source or another version. */
  lemma ReturnedBelongsToAsker(steps: seq<Step>, c: Caller)
    requires Legal(EMPTY, steps) && c in After(EMPTY, steps).returned
    ensures var s := After(EMPTY, steps);
      var (asked, r) := s.returned[c];
      r in s.built && IsOf(s.built[r], asked.workspace, asked.source, asked.version)
  {
    PoolConserves(EMPTY, steps);
    hide After, Legal, Conserved;
  }

  /** The step drops what is cached for this workspace's source. */
  predicate Drops(step: Step, workspace: string, source: string)
  {
    step.DisposeAll? || (step.Invalidate? && step.workspace == workspace && step.source == source)
  }

  predicate NothingDrops(steps: seq<Step>, workspace: string, source: string)
  {
    forall i :: 0 <= i < |steps| ==> !Drops(steps[i], workspace, source)
  }

  /** A step keeps a cached runtime where it is unless it is an invalidation of that very source, or the end of the pool. */
  lemma StaysCachedIff(s: State, step: Step, workspace: string, source: string, version: nat, r: RuntimeId)
    requires Enabled(s, step) && CachedFor(s, workspace, source, version, r)
    ensures CachedFor(Apply(s, step), workspace, source, version, r) <==> !Drops(step, workspace, source)
  {
  }

  /** Every caller of this version that came back since then came back with this runtime. */
  ghost predicate AllShare(s: State, known: set<Caller>, workspace: string, source: string, version: nat, r: RuntimeId)
  {
    forall c :: c in s.returned && c !in known && IsOf(s.returned[c].0, workspace, source, version) ==> s.returned[c].1 == r
  }

  lemma ShareStep(s: State, step: Step, known: set<Caller>, workspace: string, source: string, version: nat, r: RuntimeId)
    requires Enabled(s, step) && CachedFor(s, workspace, source, version, r) && !Drops(step, workspace, source)
    requires AllShare(s, known, workspace, source, version, r)
    ensures AllShare(Apply(s, step), known, workspace, source, version, r)
  {
  }

  /**
   Once a runtime is cached for a version, every caller of that version gets that one, however callers
   interleave, until the source is invalidated or the pool disposed of: none is built in vain twice.
   */
  lemma {:induction false} CachedIsShared(
    s: State, steps: seq<Step>, known: set<Caller>, workspace: string, source: string, version: nat, r: RuntimeId)
    requires Legal(s, steps) && CachedFor(s, workspace, source, version, r) && NothingDrops(steps, workspace, source)
    requires AllShare(s, known, workspace, source, version, r)
    ensures CachedFor(After(s, steps), workspace, source, version, r)
    ensures AllShare(After(s, steps), known, workspace, source, version, r)
    decreases |steps|
  {
    hide Enabled, Apply, CachedFor, AllShare, Drops;
    if steps != [] {
      StaysCachedIff(s, steps[0], workspace, source, version, r);
      ShareStep(s, steps[0], known, workspace, source, version, r);
      assert forall i :: 0 <= i < |steps[1..]| ==> steps[1..][i] == steps[i + 1];
      CachedIsShared(Apply(s, steps[0]), steps[1..], known, workspace, source, version, r);
    }
  }

  /** A caller that presents a version with a cached runtime has it at once, and builds nothing; any other waits for one. */
  lemma ServedAtOnceIff(s: State, c: Caller, connection: Connection)
    requires Enabled(s, Acquire(c, connection))
    ensures var s' := Apply(s, Acquire(c, connection));
      && s'.entries == s.entries && s'.built == s.built
      && (c in s'.returned <==> exists r :: CachedFor(s, connection.workspace, connection.source, connection.version, r))
      && (c in s'.returned ==> CachedFor(s, connection.workspace, connection.source, connection.version, s'.returned[c].1))
      && (c !in s'.returned ==> c in s'.waiting && s'.waiting[c] == connection)
  {
    var key := KeyOf(connection);
    if key in s.entries {
      assert CachedFor(s, connection.workspace, connection.source, connection.version, s.entries[key]);
    }
  }

  /** Of two callers that built for one version the first to install wins, the other's runtime is disposed of, and both get the winner's. */
  lemma LoserIsDisposed(s: State, c: Caller, workspace: string, source: string, version: nat, r: RuntimeId)
    requires Inv(s) && Enabled(s, Install(c)) && CachedFor(s, workspace, source, version, r)
    requires IsOf(s.built[s.inFlight[c]], workspace, source, version)
    ensures var s' := Apply(s, Install(c));
      s'.returned[c].1 == r && s.inFlight[c] != r && s'.disposed == s.disposed + {s.inFlight[c]} && CachedFor(s', workspace, source, version, r)
  {
    assert s.inFlight[c] in s.inFlight.Values && s.entries[Key(workspace, source, version)] in s.entries.Values;
  }

  /** An invalidation drops every version of its own source and nothing of any other workspace or source; what it drops is to be disposed of. */
  lemma InvalidateDropsExactly(s: State, workspace: string, source: string, key: Key)
    requires key in s.entries
    ensures var s' := Apply(s, Invalidate(workspace, source));
      && (key in s'.entries <==> key.workspace != workspace || key.source != source)
      && (key in s'.entries ==> s'.entries[key] == s.entries[key])
      && (key !in s'.entries ==> s.entries[key] in s'.retiring)
  {
  }
}
