/**
 The pool together with the stored connection its callers read (backend/app/datasources/pool.py:53-81,
 backend/app/datasources/service.py:389-429): settings come with the version a caller read, the
 password is read later, when the pool misses, and the connection may have changed in between.
 */
module PoolStore {
  import opened Common
  import opened Pool

  /** What one version of the connection holds. */
  datatype Contents = Contents(settings: string, secret: string)

  /** `versions[v - 1]` is version v; `secretOf` says from which version a runtime's password was read. */
  datatype World = World(workspace: string, source: string, versions: seq<Contents>, pool: State, secretOf: map<RuntimeId, nat>)

  datatype Move =
    | Change(contents: Contents)
    | Present(caller: Caller, version: nat)
    | ReadAndBuild(caller: Caller, runtime: RuntimeId)
    | InPool(step: Step)

  function Presented(w: World, version: nat): Connection
    requires 1 <= version <= |w.versions|
  {
    Connection(w.workspace, w.source, version, w.versions[version - 1].settings)
  }

  /** Callers present a version they have read; the pool's other steps are free. */
  predicate MayMove(w: World, move: Move)
  {
    match move
    case Change(_) => true
    case Present(c, version) => 1 <= version <= |w.versions| && Enabled(w.pool, Acquire(c, Presented(w, version)))
    case ReadAndBuild(c, r) => Enabled(w.pool, Build(c, r))
    case InPool(step) => !step.Acquire? && !step.Build? && Enabled(w.pool, step)
  }

  function Moved(w: World, move: Move): World
    requires MayMove(w, move)
  {
    match move
    case Change(contents) => w.(versions := w.versions + [contents])
    case Present(c, version) => w.(pool := Apply(w.pool, Acquire(c, Presented(w, version))))
    case ReadAndBuild(c, r) => w.(pool := Apply(w.pool, Build(c, r)), secretOf := w.secretOf[r := |w.versions|])
    case InPool(step) => w.(pool := Apply(w.pool, step))
  }

  predicate LegalMoves(w: World, moves: seq<Move>)
    decreases |moves|
  {
    moves == [] || (MayMove(w, moves[0]) && LegalMoves(Moved(w, moves[0]), moves[1..]))
  }

  function AfterMoves(w: World, moves: seq<Move>): World
    requires LegalMoves(w, moves)
    decreases |moves|
  {
    if moves == [] then w else AfterMoves(Moved(w, moves[0]), moves[1..])
  }

  /** The connection is one of the stored versions, as it was stored. */
  predicate Stored(w: World, connection: Connection)
  {
    1 <= connection.version <= |w.versions| && connection == Presented(w, connection.version)
  }

  /** The runtime's settings are its version's, and its password is of that version or a later one. */
  predicate Sound(w: World, r: RuntimeId)
    requires r in w.pool.built
  {
    Stored(w, w.pool.built[r]) && r in w.secretOf && w.pool.built[r].version <= w.secretOf[r] <= |w.versions|
  }

  ghost predicate AllStored(w: World)
  {
    && (forall c :: c in w.pool.waiting ==> Stored(w, w.pool.waiting[c]))
    && (forall r :: r in w.pool.built ==> Sound(w, r))
    && (forall c :: c in w.pool.returned ==> Stored(w, w.pool.returned[c].0))
  }

  ghost predicate Consistent(w: World)
  {
    Inv(w.pool) && Roles(w.pool) && AllStored(w)
  }

  lemma VersionsStay(w: World, move: Move)
    requires MayMove(w, move)
    ensures forall connection :: Stored(w, connection) ==> Stored(Moved(w, move), connection)
  {
    hide Enabled, Apply;
  }

  lemma InstallKeepsStored(w: World, c: Caller)
    requires AllStored(w) && Enabled(w.pool, Install(c))
    ensures AllStored(Moved(w, InPool(Install(c))))
  {
    VersionsStay(w, InPool(Install(c)));
    assert Sound(w, w.pool.inFlight[c]);
    var w' := Moved(w, InPool(Install(c)));
    forall r | r in w'.pool.built
      ensures Sound(w', r)
    {
      assert Sound(w, r);
    }
    hide Stored, Installed;
  }

  lemma PresentKeepsStored(w: World, c: Caller, version: nat)
    requires AllStored(w) && MayMove(w, Present(c, version))
    ensures AllStored(Moved(w, Present(c, version)))
  {
    VersionsStay(w, Present(c, version));
    assert Stored(w, Presented(w, version));
    var w' := Moved(w, Present(c, version));
    forall r | r in w'.pool.built
      ensures Sound(w', r)
    {
      assert Sound(w, r);
    }
    hide Stored, Presented;
  }

  lemma BuildKeepsStored(w: World, c: Caller, r: RuntimeId)
    requires AllStored(w) && MayMove(w, ReadAndBuild(c, r))
    ensures AllStored(Moved(w, ReadAndBuild(c, r)))
  {
    VersionsStay(w, ReadAndBuild(c, r));
    var w' := Moved(w, ReadAndBuild(c, r));
    assert Stored(w, w.pool.waiting[c]);
    forall q | q in w'.pool.built
      ensures Sound(w', q)
    {
      assert q in w.pool.built ==> Sound(w, q);
    }
    hide Stored;
  }

  lemma QuietKeepsStored(w: World, w': World)
    requires AllStored(w) && w.versions <= w'.versions && w'.workspace == w.workspace && w'.source == w.source
    requires w'.secretOf == w.secretOf && w'.pool.built == w.pool.built && w'.pool.returned == w.pool.returned
    requires forall c :: c in w'.pool.waiting ==> c in w.pool.waiting && w'.pool.waiting[c] == w.pool.waiting[c]
    ensures AllStored(w')
  {
    forall r | r in w'.pool.built
      ensures Sound(w', r)
    {
      assert Sound(w, r);
    }
  }

  lemma MoveKeepsStored(w: World, move: Move)
    requires AllStored(w) && MayMove(w, move)
    ensures AllStored(Moved(w, move))
  {
    hide AllStored;
    match move
    case Present(c, version) => PresentKeepsStored(w, c, version);
    case ReadAndBuild(c, r) => BuildKeepsStored(w, c, r);
    case Change(_) => QuietKeepsStored(w, Moved(w, move));
    case InPool(step) =>
      if step.Install? {
        InstallKeepsStored(w, step.caller);
      } else {
        QuietKeepsStored(w, Moved(w, move));
      }
  }

  lemma MoveKeeps(w: World, move: Move)
    requires Consistent(w) && MayMove(w, move)
    ensures Consistent(Moved(w, move))
  {
    hide Inv, Roles, AllStored, Apply, Enabled;
    MoveKeepsStored(w, move);
    match move
    case Change(_) =>
    case Present(c, version) => StepKeeps(w.pool, Acquire(c, Presented(w, version)));
    case ReadAndBuild(c, r) => StepKeeps(w.pool, Build(c, r));
    case InPool(step) => StepKeeps(w.pool, step);
  }

  lemma {:induction false} MovesKeep(w: World, moves: seq<Move>)
    requires Consistent(w) && LegalMoves(w, moves)
    ensures Consistent(AfterMoves(w, moves))
    decreases |moves|
  {
    if moves != [] {
      hide Consistent, MayMove, Moved;
      MoveKeeps(w, moves[0]);
      MovesKeep(Moved(w, moves[0]), moves[1..]);
    }
  }

  /**
   Whatever changes while callers acquire, build, install and invalidate: a runtime returned to a
   caller that asked for version v has v's settings and the password of v or of a later version.
   */
  lemma ReturnedRuntime(workspace: string, source: string, versions: seq<Contents>, moves: seq<Move>, c: Caller)
    requires LegalMoves(World(workspace, source, versions, EMPTY, map[]), moves)
    requires c in AfterMoves(World(workspace, source, versions, EMPTY, map[]), moves).pool.returned
    ensures var w := AfterMoves(World(workspace, source, versions, EMPTY, map[]), moves);
      var (asked, r) := w.pool.returned[c];
      && r in w.pool.built && 1 <= asked.version <= |w.versions|
      && w.pool.built[r].version == asked.version
      && w.pool.built[r].settings == w.versions[asked.version - 1].settings
      && r in w.secretOf && asked.version <= w.secretOf[r] <= |w.versions|
  {
    MovesKeep(World(workspace, source, versions, EMPTY, map[]), moves);
    hide LegalMoves, AfterMoves, Conserved;
    var w := AfterMoves(World(workspace, source, versions, EMPTY, map[]), moves);
    assert Sound(w, w.pool.returned[c].1);
  }

  /** And later it may be: the password is changed between the read of the connection and the read of the password. */
  lemma SecretMayBeLater(workspace: string, source: string, first: Contents, second: Contents)
    ensures var w := World(workspace, source, [first], EMPTY, map[]);
      var moves := [Present(0, 1), Change(second), ReadAndBuild(0, 0), InPool(Install(0))];
      && LegalMoves(w, moves)
      && var w' := AfterMoves(w, moves);
         0 in w'.pool.returned && w'.pool.returned[0].0.version == 1 && w'.secretOf == map[0 := 2]
  {
    var w := World(workspace, source, [first], EMPTY, map[]);
    var moves := [Present(0, 1), Change(second), ReadAndBuild(0, 0), InPool(Install(0))];
    assert moves[1..][1..] == moves[2..] && moves[2..][1..] == moves[3..] && moves[3..][1..] == [];
    var w1 := Moved(w, moves[0]);
    var w2 := Moved(w1, moves[1]);
    var w3 := Moved(w2, moves[2]);
    var w4 := Moved(w3, moves[3]);
    assert AfterMoves(w4, []) == w4 && LegalMoves(w4, []);
    assert LegalMoves(w3, moves[3..]) && AfterMoves(w3, moves[3..]) == w4;
    assert LegalMoves(w2, moves[2..]) && AfterMoves(w2, moves[2..]) == w4;
    assert LegalMoves(w1, moves[1..]) && AfterMoves(w1, moves[1..]) == w4;
  }

  // ---- exactly when the password is the runtime's own version's ----

  /** The password is read while the version its caller presented is still the newest. */
  predicate Timely(w: World, move: Move)
    requires MayMove(w, move)
  {
    move.ReadAndBuild? ==> w.pool.waiting[move.caller].version == |w.versions|
  }

  predicate AllTimely(w: World, moves: seq<Move>)
    requires LegalMoves(w, moves)
    decreases |moves|
  {
    moves == [] || (Timely(w, moves[0]) && AllTimely(Moved(w, moves[0]), moves[1..]))
  }

  predicate OwnSecret(w: World, r: RuntimeId)
    requires r in w.pool.built
  {
    r in w.secretOf && w.secretOf[r] == w.pool.built[r].version
  }

  /** Every runtime built has the password of its own version. */
  ghost predicate AllOwn(w: World)
  {
    forall r :: r in w.pool.built ==> OwnSecret(w, r)
  }

  lemma QuietKeepsOwn(w: World, move: Move)
    requires MayMove(w, move) && !move.ReadAndBuild?
    ensures AllOwn(Moved(w, move)) <==> AllOwn(w)
  {
    var w' := Moved(w, move);
    assert w'.pool.built == w.pool.built && w'.secretOf == w.secretOf;
    assert forall r :: r in w.pool.built ==> (OwnSecret(w', r) <==> OwnSecret(w, r));
    hide OwnSecret;
  }

  lemma BuildOwnIff(w: World, c: Caller, r: RuntimeId)
    requires MayMove(w, ReadAndBuild(c, r))
    ensures AllOwn(Moved(w, ReadAndBuild(c, r))) <==> AllOwn(w) && Timely(w, ReadAndBuild(c, r))
  {
    var w' := Moved(w, ReadAndBuild(c, r));
    assert OwnSecret(w', r) <==> Timely(w, ReadAndBuild(c, r));
    assert forall q :: q in w.pool.built ==> (OwnSecret(w', q) <==> OwnSecret(w, q));
    assert r in w'.pool.built && forall q :: q in w'.pool.built <==> q in w.pool.built || q == r;
    hide OwnSecret, Timely;
  }

  /** One move leaves every runtime with its own password if and only if all had theirs and the read, if it was one, was timely. */
  lemma MoveOwnIff(w: World, move: Move)
    requires MayMove(w, move)
    ensures AllOwn(Moved(w, move)) <==> AllOwn(w) && Timely(w, move)
  {
    hide AllOwn;
    match move
    case ReadAndBuild(c, r) => BuildOwnIff(w, c, r);
    case _ => QuietKeepsOwn(w, move);
  }

  lemma {:induction false} MovesOwnIff(w: World, moves: seq<Move>)
    requires LegalMoves(w, moves)
    ensures AllOwn(AfterMoves(w, moves)) <==> AllOwn(w) && AllTimely(w, moves)
    decreases |moves|
  {
    hide AllOwn, MayMove, Moved, Timely;
    if moves != [] {
      MoveOwnIff(w, moves[0]);
      MovesOwnIff(Moved(w, moves[0]), moves[1..]);
    }
  }

  /**
   Over any moves from an empty pool: every runtime built has the password of its own version if and
   only if every password was read while the version its caller presented was still the newest. A
   wrong password never becomes right again.
   */
  lemma OwnSecretIff(workspace: string, source: string, versions: seq<Contents>, moves: seq<Move>)
    requires LegalMoves(World(workspace, source, versions, EMPTY, map[]), moves)
    ensures var w := World(workspace, source, versions, EMPTY, map[]);
      AllOwn(AfterMoves(w, moves)) <==> AllTimely(w, moves)
  {
    MovesOwnIff(World(workspace, source, versions, EMPTY, map[]), moves);
  }

  /** With timely reads, then, a caller gets settings and password of the one version it asked for. */
  lemma TimelyRuntime(workspace: string, source: string, versions: seq<Contents>, moves: seq<Move>, c: Caller)
    requires LegalMoves(World(workspace, source, versions, EMPTY, map[]), moves)
    requires AllTimely(World(workspace, source, versions, EMPTY, map[]), moves)
    requires c in AfterMoves(World(workspace, source, versions, EMPTY, map[]), moves).pool.returned
    ensures var w := AfterMoves(World(workspace, source, versions, EMPTY, map[]), moves);
      var (asked, r) := w.pool.returned[c];
      && r in w.pool.built && w.pool.built[r].version == asked.version
      && r in w.secretOf && w.secretOf[r] == asked.version
  {
    ReturnedRuntime(workspace, source, versions, moves, c);
    OwnSecretIff(workspace, source, versions, moves);
    hide LegalMoves, AfterMoves, AllTimely;
    var w := AfterMoves(World(workspace, source, versions, EMPTY, map[]), moves);
    assert OwnSecret(w, w.pool.returned[c].1);
  }
}
