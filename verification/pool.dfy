/**
 The pool of live data source runtimes, shared by concurrent callers
 (backend/app/datasources/pool.py). Each section the program runs under its lock is one step; building
 a runtime and disposing evicted ones happen between such sections.
 */
module Pool {
  import opened Common

  /** A connection as a caller read it from the store; `settings` stands for host, user, timeouts and so on. */
  datatype Connection = Connection(workspace: string, source: string, version: nat, settings: string)
  datatype Key = Key(workspace: string, source: string, version: nat)

  type RuntimeId = nat
  type Caller = nat

  function KeyOf(c: Connection): Key
  {
    Key(c.workspace, c.source, c.version)
  }

  predicate SameSource(key: Key, workspace: string, source: string)
  {
    key.workspace == workspace && key.source == source
  }

  // ---- the locked sections, on the dictionary of entries ----

  /** Install a freshly built runtime unless somebody was faster; also says which runtime the caller gets. */
  function Installed(entries: map<Key, RuntimeId>, key: Key, built: RuntimeId): (map<Key, RuntimeId>, RuntimeId)
  {
    if key in entries then (entries, entries[key]) else (entries[key := built], built)
  }

  function Kept(entries: map<Key, RuntimeId>, workspace: string, source: string): map<Key, RuntimeId>
  {
    map key | key in entries && !SameSource(key, workspace, source) :: entries[key]
  }

  function EvictedOf(entries: map<Key, RuntimeId>, workspace: string, source: string): set<RuntimeId>
  {
    set key | key in entries && SameSource(key, workspace, source) :: entries[key]
  }

  class DataSourceRuntimePool {
    var entries: map<Key, RuntimeId>
    /** The runtimes whose disposal has been asked for. */
    var disposed: set<RuntimeId>

    constructor ()
      ensures entries == map[] && disposed == {}
    {
      entries, disposed := map[], {};
    }

    /** The first locked section of `acquire`. */
    method LookUp(connection: Connection) returns (cached: Option<RuntimeId>)
      ensures cached == if KeyOf(connection) in entries then Some(entries[KeyOf(connection)]) else None
    {
      if KeyOf(connection) in entries {
        return Some(entries[KeyOf(connection)]);
      }
      return None;
    }

    /** The second locked section of `acquire`: a runtime that lost the race is disposed on the spot. */
    method Install(connection: Connection, runtime: RuntimeId) returns (result: RuntimeId)
      modifies this
      ensures (entries, result) == Installed(old(entries), KeyOf(connection), runtime)
      ensures disposed == old(disposed) + if result == runtime then {} else {runtime}
      ensures KeyOf(connection) in entries && entries[KeyOf(connection)] == result
    {
      var key := KeyOf(connection);
      if key in entries {
        result := entries[key];
        if result != runtime {
          disposed := disposed + {runtime};
        }
        return;
      }
      entries := entries[key := runtime];
      result := runtime;
    }

    method Invalidate(workspace: string, source: string)
      modifies this
      ensures entries == Kept(old(entries), workspace, source)
      ensures disposed == old(disposed) + EvictedOf(old(entries), workspace, source)
    {
      var staleKeys := set key | key in entries && SameSource(key, workspace, source);
      var stale := {};
      while staleKeys != {}
        invariant forall key :: key in staleKeys ==> key in entries && SameSource(key, workspace, source)
        invariant forall key :: key in entries <==> key in old(entries) && (SameSource(key, workspace, source) ==> key in staleKeys)
        invariant forall key :: key in entries ==> entries[key] == old(entries)[key]
        invariant stale == set key | key in old(entries) && key !in entries :: old(entries)[key]
        invariant disposed == old(disposed)
      {
        var key :| key in staleKeys;
        ghost var before := entries;
        stale := stale + {entries[key]};
        entries := entries - {key};
        staleKeys := staleKeys - {key};
        assert old(entries)[key] == before[key];
      }
      disposed := disposed + stale;
    }

    method Dispose()
      modifies this
      ensures entries == map[] && disposed == old(disposed) + old(entries).Values
    {
      var stale := entries.Values;
      entries := map[];
      disposed := disposed + stale;
    }
  }

  // ---- the pool and everybody around it ----

  /**
   `waiting` are callers that missed and are still fetching the password, `inFlight` those that
   hold a runtime they built and have not installed, `retiring` evicted runtimes about to be
   disposed. `returned` is what each acquire call came back with.
   */
  datatype State = State(
    entries: map<Key, RuntimeId>, built: map<RuntimeId, Connection>,
    waiting: map<Caller, Connection>, inFlight: map<Caller, RuntimeId>,
    retiring: set<RuntimeId>, disposed: set<RuntimeId>, returned: map<Caller, (Connection, RuntimeId)>)

  const EMPTY: State := State(map[], map[], map[], map[], {}, {}, map[])

  datatype Step =
    | Acquire(caller: Caller, connection: Connection)
    | GiveUp(caller: Caller)
    | Build(caller: Caller, runtime: RuntimeId)
    | Install(caller: Caller)
    | Invalidate(workspace: string, source: string)
    | DisposeAll
    | Retire(runtime: RuntimeId)

  predicate Enabled(s: State, step: Step)
  {
    match step
    case Acquire(c, _) => c !in s.waiting && c !in s.inFlight && c !in s.returned
    case GiveUp(c) => c in s.waiting
    case Build(c, r) => c in s.waiting && r !in s.built
    case Install(c) => c in s.inFlight && s.inFlight[c] in s.built
    case Retire(r) => r in s.retiring
    case _ => true
  }

  function Apply(s: State, step: Step): State
    requires Enabled(s, step)
  {
    match step
    case Acquire(c, connection) =>
      var key := KeyOf(connection);
      if key in s.entries then s.(returned := s.returned[c := (connection, s.entries[key])])
      else s.(waiting := s.waiting[c := connection])
    case GiveUp(c) => s.(waiting := s.waiting - {c})
    case Build(c, r) =>
      s.(waiting := s.waiting - {c}, inFlight := s.inFlight[c := r], built := s.built[r := s.waiting[c]])
    case Install(c) =>
      var r := s.inFlight[c];
      var (entries, result) := Installed(s.entries, KeyOf(s.built[r]), r);
      s.(entries := entries, inFlight := s.inFlight - {c}, returned := s.returned[c := (s.built[r], result)],
         disposed := s.disposed + if result == r then {} else {r})
    case Invalidate(workspace, source) =>
      s.(entries := Kept(s.entries, workspace, source), retiring := s.retiring + EvictedOf(s.entries, workspace, source))
    case DisposeAll => s.(entries := map[], retiring := s.retiring + s.entries.Values)
    case Retire(r) => s.(retiring := s.retiring - {r}, disposed := s.disposed + {r})
  }

  predicate Legal(s: State, steps: seq<Step>)
    decreases |steps|
  {
    steps == [] || (Enabled(s, steps[0]) && Legal(Apply(s, steps[0]), steps[1..]))
  }

  function After(s: State, steps: seq<Step>): State
    requires Legal(s, steps)
    decreases |steps|
  {
    if steps == [] then s else After(Apply(s, steps[0]), steps[1..])
  }

  // ---- conservation ----

  predicate Cached(s: State, r: RuntimeId)
  {
    r in s.entries.Values
  }

  predicate Held(s: State, r: RuntimeId)
  {
    r in s.inFlight.Values
  }

  /**
   Every runtime ever built is exactly one of: held by the caller that built it, cached, being
   retired, or disposed. No two keys share a runtime and no two callers hold one, and a runtime
   is cached under the key of the connection it was built from.
   */
  ghost predicate Conserved(s: State)
  {
    && (forall r :: r in s.built <==> Held(s, r) || Cached(s, r) || r in s.retiring || r in s.disposed)
    && s.inFlight.Values !! s.entries.Values !! s.retiring !! s.disposed
    && (forall c, d :: c in s.inFlight && d in s.inFlight && s.inFlight[c] == s.inFlight[d] ==> c == d)
    && (forall key :: key in s.entries ==> s.entries[key] in s.built && KeyOf(s.built[s.entries[key]]) == key)
  }

  /** What a caller got back was built from a connection of the same source and version as the one it asked with. */
  ghost predicate RightVersion(s: State)
  {
    forall c :: c in s.returned ==> s.returned[c].1 in s.built && KeyOf(s.built[s.returned[c].1]) == KeyOf(s.returned[c].0)
  }

  ghost predicate Inv(s: State)
  {
    Conserved(s) && RightVersion(s)
  }

  lemma ValuesAfterRemove<K, V>(m: map<K, V>, k: K)
    requires k in m && forall j :: j in m && m[j] == m[k] ==> j == k
    ensures (m - {k}).Values == m.Values - {m[k]}
  {
    forall v | v in m.Values && v != m[k] ensures v in (m - {k}).Values {
      var j :| j in m && m[j] == v;
      assert j in m - {k} && (m - {k})[j] == v;
    }
  }

  lemma ValuesAfterAdd<K, V>(m: map<K, V>, k: K, v: V)
    requires k !in m
    ensures m[k := v].Values == m.Values + {v}
  {
    assert m[k := v][k] == v;
    forall w | w in m.Values ensures w in m[k := v].Values {
      var j :| j in m && m[j] == w;
      assert m[k := v][j] == w;
    }
  }

  lemma BuildConserves(s: State, c: Caller, r: RuntimeId)
    requires Conserved(s) && Enabled(s, Build(c, r)) && c !in s.inFlight
    ensures Conserved(Apply(s, Build(c, r)))
  {
    var s' := Apply(s, Build(c, r));
    ValuesAfterAdd(s.inFlight, c, r);
    assert !Held(s, r) && !Cached(s, r) && r !in s.retiring && r !in s.disposed;
    forall d | d in s.inFlight ensures s.inFlight[d] != r {
      assert s.inFlight[d] in s.inFlight.Values;
    }
    forall key | key in s'.entries ensures s'.entries[key] in s'.built && KeyOf(s'.built[s'.entries[key]]) == key {
      assert s.entries[key] in s.entries.Values;
    }
  }

  lemma InstallConserves(s: State, c: Caller)
    requires Conserved(s) && Enabled(s, Install(c))
    ensures Conserved(Apply(s, Install(c)))
  {
    var r := s.inFlight[c];
    var key := KeyOf(s.built[r]);
    ValuesAfterRemove(s.inFlight, c);
    assert Held(s, r);
    if key in s.entries {
      assert s.entries[key] in s.entries.Values;
    } else {
      ValuesAfterAdd(s.entries, key, r);
    }
  }

  lemma EvictionSplits(entries: map<Key, RuntimeId>, workspace: string, source: string)
    requires forall j, k :: j in entries && k in entries && entries[j] == entries[k] ==> j == k
    ensures entries.Values == Kept(entries, workspace, source).Values + EvictedOf(entries, workspace, source)
    ensures Kept(entries, workspace, source).Values !! EvictedOf(entries, workspace, source)
  {
    var kept := Kept(entries, workspace, source);
    forall r | r in entries.Values ensures r in kept.Values || r in EvictedOf(entries, workspace, source) {
      var key :| key in entries && entries[key] == r;
      if !SameSource(key, workspace, source) {
        assert kept[key] == r;
      }
    }
  }

  lemma InvalidateConserves(s: State, workspace: string, source: string)
    requires Conserved(s)
    ensures Conserved(Apply(s, Invalidate(workspace, source)))
  {
    forall j, k | j in s.entries && k in s.entries && s.entries[j] == s.entries[k] ensures j == k {
      assert KeyOf(s.built[s.entries[j]]) == j;
    }
    EvictionSplits(s.entries, workspace, source);
    hide Kept, EvictedOf;
    KeptIsPart(s.entries, workspace, source);
  }

  lemma KeptIsPart(entries: map<Key, RuntimeId>, workspace: string, source: string)
    ensures forall key :: key in Kept(entries, workspace, source) ==> key in entries && Kept(entries, workspace, source)[key] == entries[key]
  {
  }

  lemma OtherStepsConserve(s: State, step: Step)
    requires Conserved(s) && Enabled(s, step) && (step.Acquire? || step.GiveUp? || step.DisposeAll? || step.Retire?)
    ensures Conserved(Apply(s, step))
  {
  }

  lemma StepKeepsVersion(s: State, step: Step)
    requires Inv(s) && Enabled(s, step)
    ensures RightVersion(Apply(s, step))
  {
    if step.Install? {
      var key := KeyOf(s.built[s.inFlight[step.caller]]);
      assert key in s.entries ==> KeyOf(s.built[s.entries[key]]) == key;
    }
  }

  /** Callers that wait, hold or have returned are different callers. */
  predicate Roles(s: State)
  {
    s.waiting.Keys !! s.inFlight.Keys !! s.returned.Keys
  }

  lemma StepKeeps(s: State, step: Step)
    requires Inv(s) && Roles(s) && Enabled(s, step)
    ensures Inv(Apply(s, step)) && Roles(Apply(s, step))
  {
    hide Conserved, RightVersion, Apply;
    StepKeepsVersion(s, step);
    StepKeepsRoles(s, step);
    match step
    case Build(c, r) => BuildConserves(s, c, r);
    case Install(c) => InstallConserves(s, c);
    case Invalidate(workspace, source) => InvalidateConserves(s, workspace, source);
    case _ => OtherStepsConserve(s, step);
  }

  lemma StepKeepsRoles(s: State, step: Step)
    requires Roles(s) && Enabled(s, step)
    ensures Roles(Apply(s, step))
  {
  }

  /** Conservation and the right version hold after any interleaving of acquires, invalidations and disposals. */
  lemma {:induction false} PoolConserves(s: State, steps: seq<Step>)
    requires Inv(s) && Roles(s) && Legal(s, steps)
    ensures Inv(After(s, steps)) && Roles(After(s, steps))
    decreases |steps|
  {
    if steps != [] {
      StepKeeps(s, steps[0]);
      PoolConserves(Apply(s, steps[0]), steps[1..]);
    }
  }

  /** The same from the empty pool, said of one runtime: it is in exactly one place, and not both cached and disposed. */
  lemma EveryRuntimeInOnePlace(steps: seq<Step>, r: RuntimeId)
    requires Legal(EMPTY, steps) && r in After(EMPTY, steps).built
    ensures var s := After(EMPTY, steps);
      || (Held(s, r) && !Cached(s, r) && r !in s.retiring && r !in s.disposed)
      || (!Held(s, r) && Cached(s, r) && r !in s.retiring && r !in s.disposed)
      || (!Held(s, r) && !Cached(s, r) && r in s.retiring && r !in s.disposed)
      || (!Held(s, r) && !Cached(s, r) && r !in s.retiring && r in s.disposed)
  {
    PoolConserves(EMPTY, steps);
  }

  /**
   When every connection a caller presents carries the settings its version has in the store,
   what a caller gets back was built from the settings of the version it asked for.
   */
  lemma ReturnedSettings(steps: seq<Step>, settings: Key -> string, c: Caller)
    requires Legal(EMPTY, steps) && c in After(EMPTY, steps).returned
    requires forall i :: 0 <= i < |steps| && steps[i].Acquire? ==> steps[i].connection.settings == settings(KeyOf(steps[i].connection))
    ensures var s := After(EMPTY, steps);
      s.returned[c].1 in s.built && s.built[s.returned[c].1].settings == settings(KeyOf(s.returned[c].0)) == s.returned[c].0.settings
  {
    PoolConserves(EMPTY, steps);
    SettingsKept(EMPTY, steps, settings);
  }

  ghost predicate FromStore(s: State, settings: Key -> string)
  {
    && (forall c :: c in s.waiting ==> s.waiting[c].settings == settings(KeyOf(s.waiting[c])))
    && (forall r :: r in s.built ==> s.built[r].settings == settings(KeyOf(s.built[r])))
    && (forall c :: c in s.returned ==> s.returned[c].0.settings == settings(KeyOf(s.returned[c].0)))
  }

  lemma {:induction false} SettingsKept(s: State, steps: seq<Step>, settings: Key -> string)
    requires FromStore(s, settings) && Legal(s, steps)
    requires forall i :: 0 <= i < |steps| && steps[i].Acquire? ==> steps[i].connection.settings == settings(KeyOf(steps[i].connection))
    ensures FromStore(After(s, steps), settings)
    decreases |steps|
  {
    if steps != [] {
      assert steps[0].Acquire? ==> steps[0].connection.settings == settings(KeyOf(steps[0].connection));
      SettingsKept(Apply(s, steps[0]), steps[1..], settings);
    }
  }

  // ---- what invalidating achieves ----

  predicate Outdated(key: Key, workspace: string, source: string, version: nat)
  {
    SameSource(key, workspace, source) && key.version < version
  }

  /** Nobody is on the way to install a runtime of an earlier version of this source. */
  ghost predicate NothingUnderway(s: State, workspace: string, source: string, version: nat)
  {
    && (forall c :: c in s.waiting ==> !Outdated(KeyOf(s.waiting[c]), workspace, source, version))
    && (forall c :: c in s.inFlight && s.inFlight[c] in s.built ==> !Outdated(KeyOf(s.built[s.inFlight[c]]), workspace, source, version))
  }

  /** No runtime of an earlier version is cached, or can still come to be. */
  ghost predicate Purged(s: State, workspace: string, source: string, version: nat)
  {
    && (forall key :: key in s.entries ==> !Outdated(key, workspace, source, version))
    && NothingUnderway(s, workspace, source, version)
  }

  /** Once purged, a source stays purged as long as callers present connections of that version or later. */
  lemma {:induction false} StaysPurged(s: State, steps: seq<Step>, workspace: string, source: string, version: nat)
    requires Purged(s, workspace, source, version) && Legal(s, steps) && Inv(s) && Roles(s)
    requires forall i :: 0 <= i < |steps| && steps[i].Acquire? ==> !Outdated(KeyOf(steps[i].connection), workspace, source, version)
    ensures Purged(After(s, steps), workspace, source, version)
    decreases |steps|
  {
    if steps != [] {
      StepKeeps(s, steps[0]);
      StepStaysPurged(s, steps[0], workspace, source, version);
      StaysPurged(Apply(s, steps[0]), steps[1..], workspace, source, version);
    }
  }

  lemma StepStaysPurged(s: State, step: Step, workspace: string, source: string, version: nat)
    requires Purged(s, workspace, source, version) && Enabled(s, step) && Inv(s)
    requires step.Acquire? ==> !Outdated(KeyOf(step.connection), workspace, source, version)
    ensures Purged(Apply(s, step), workspace, source, version)
  {
    hide RightVersion;
    assert forall c :: c in s.inFlight ==> s.inFlight[c] in s.inFlight.Values && s.inFlight[c] in s.built;
  }

  /** No runtime of an earlier version of this source is cached. */
  predicate Clean(s: State, workspace: string, source: string, version: nat)
  {
    forall key :: key in s.entries ==> !Outdated(key, workspace, source, version)
  }

  /** Callers only present connections of this version or later. */
  predicate OnlyCurrent(steps: seq<Step>, workspace: string, source: string, version: nat)
  {
    forall i :: 0 <= i < |steps| && steps[i].Acquire? ==> !Outdated(KeyOf(steps[i].connection), workspace, source, version)
  }

  /** Whatever happens from here on, as long as callers are current, nothing earlier is ever cached. */
  ghost predicate NeverOutdatedAgain(s: State, workspace: string, source: string, version: nat)
  {
    forall steps :: Legal(s, steps) && OnlyCurrent(steps, workspace, source, version) ==> Clean(After(s, steps), workspace, source, version)
  }

  lemma FreshRuntime(used: set<RuntimeId>) returns (r: RuntimeId)
    ensures r !in used && forall u :: u in used ==> u < r
  {
    if used == {} {
      r := 0;
    } else {
      var u :| u in used;
      var other := FreshRuntime(used - {u});
      r := if other > u then other else u + 1;
      assert forall v :: v in used ==> v == u || v in used - {u};
    }
  }

  lemma InstallCaches(s: State, c: Caller, workspace: string, source: string, version: nat)
    requires c in s.inFlight && s.inFlight[c] in s.built && Outdated(KeyOf(s.built[s.inFlight[c]]), workspace, source, version)
    ensures Legal(s, [Install(c)]) && OnlyCurrent([Install(c)], workspace, source, version)
    ensures !Clean(After(s, [Install(c)]), workspace, source, version)
  {
    var s' := Apply(s, Install(c));
    var key := KeyOf(s.built[s.inFlight[c]]);
    assert key in s'.entries;
    assert [Install(c)][1..] == [];
    assert After(s, [Install(c)]) == s';
  }

  /** A caller that holds an outdated runtime, or is about to build one, has a run ahead that caches it. */
  lemma UnderwayComesBack(s: State, workspace: string, source: string, version: nat)
    requires !NothingUnderway(s, workspace, source, version)
    ensures !NeverOutdatedAgain(s, workspace, source, version)
  {
    if c :| c in s.waiting && Outdated(KeyOf(s.waiting[c]), workspace, source, version) {
      var r := FreshRuntime(s.built.Keys);
      var s' := Apply(s, Build(c, r));
      InstallCaches(s', c, workspace, source, version);
      var steps := [Build(c, r), Install(c)];
      assert steps[1..] == [Install(c)];
      assert Legal(s, steps) && OnlyCurrent(steps, workspace, source, version);
      assert After(s, steps) == After(s', [Install(c)]);
    } else {
      var c :| c in s.inFlight && s.inFlight[c] in s.built && Outdated(KeyOf(s.built[s.inFlight[c]]), workspace, source, version);
      InstallCaches(s, c, workspace, source, version);
    }
  }

  /**
   What an invalidation is worth: nothing earlier is ever cached again, in any run in which callers
   are current, exactly when nobody was on the way to install something earlier at that moment.
   */
  lemma InvalidateLastsIff(s: State, workspace: string, source: string, version: nat)
    requires Inv(s) && Roles(s)
    ensures NeverOutdatedAgain(Apply(s, Invalidate(workspace, source)), workspace, source, version) <==>
      NothingUnderway(s, workspace, source, version)
  {
    var s' := Apply(s, Invalidate(workspace, source));
    StepKeeps(s, Invalidate(workspace, source));
    assert NothingUnderway(s', workspace, source, version) <==> NothingUnderway(s, workspace, source, version);
    if NothingUnderway(s, workspace, source, version) {
      assert Purged(s', workspace, source, version);
      forall steps | Legal(s', steps) && OnlyCurrent(steps, workspace, source, version)
        ensures Clean(After(s', steps), workspace, source, version)
      {
        StaysPurged(s', steps, workspace, source, version);
      }
    } else {
      UnderwayComesBack(s', workspace, source, version);
    }
  }

  /**
   Without that condition the promise fails: a caller that built its runtime before the
   invalidation installs it afterwards, and the outdated runtime is cached and returned.
   */
  lemma LateInstallOutlivesInvalidate(workspace: string, source: string, settings: string)
    ensures var connection := Connection(workspace, source, 1, settings);
      var steps := [Acquire(0, connection), Build(0, 7), Invalidate(workspace, source), Install(0)];
      && Legal(EMPTY, steps)
      && Cached(After(EMPTY, steps), 7)
      && After(EMPTY, steps).returned == map[0 := (connection, 7)]
  {
    var connection := Connection(workspace, source, 1, settings);
    var steps := [Acquire(0, connection), Build(0, 7), Invalidate(workspace, source), Install(0)];
    var s1 := Apply(EMPTY, steps[0]);
    var s2 := Apply(s1, steps[1]);
    var s3 := Apply(s2, steps[2]);
    var s4 := Apply(s3, steps[3]);
    assert s4.entries[KeyOf(connection)] == 7;
    assert steps[1..][1..] == steps[2..] && steps[2..][1..] == steps[3..] && steps[3..][1..] == [];
    assert Legal(s4, []) && After(s4, []) == s4;
    assert Legal(s3, steps[3..]) && After(s3, steps[3..]) == s4;
    assert Legal(s2, steps[2..]) && After(s2, steps[2..]) == s4;
    assert Legal(s1, steps[1..]) && After(s1, steps[1..]) == s4;
  }
}
