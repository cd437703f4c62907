// The path-lock table of the distributed file system, as an interleaving of threads: every
// call first takes the table mutex, and lock keeps it while it waits for the path's mutex.

module PathLocks {
  import Runs

  type Thread = nat

  // Where a thread is inside lock(p) or release(p).
  datatype Place =
    | Outside
    | LockWaitsTable(path: string)
    | LockWaitsPath(path: string)
    | LockReturns(path: string)
    | ReleaseWaitsTable(path: string)
    | ReleaseUnlocks(path: string)
    | ReleaseReturns(path: string)

  // table: the holder of the table mutex; locked: the known path mutexes and whether each is
  // locked; holds: completed locks that have not been released; completed: calls returned.
  datatype Table = Table(table: set<Thread>, locked: map<string, bool>, places: map<Thread, Place>,
                         holds: set<(Thread, string)>, completed: nat)

  datatype Move =
    | CallLock(t: Thread, path: string)
    | CallRelease(t: Thread, path: string)
    | TakeTable(t: Thread)
    | LockPath(t: Thread)
    | UnlockPath(t: Thread)
    | Return(t: Thread)

  function At(s: Table, t: Thread): Place {
    if t in s.places then s.places[t] else Outside
  }

  // Only a holder releases.
  predicate CanMove(s: Table, m: Move) {
    match m
    case CallLock(t, _) => At(s, t).Outside?
    case CallRelease(t, path) => At(s, t).Outside? && (t, path) in s.holds
    case TakeTable(t) => (At(s, t).LockWaitsTable? || At(s, t).ReleaseWaitsTable?) && s.table == {}
    case LockPath(t) => At(s, t).LockWaitsPath? && At(s, t).path in s.locked && !s.locked[At(s, t).path]
    case UnlockPath(t) => At(s, t).ReleaseUnlocks?
    case Return(t) => At(s, t).LockReturns? || At(s, t).ReleaseReturns?
  }

  // A move that cannot be made changes nothing; Feasible excludes such moves from runs.
  function Make(s: Table, m: Move): Table {
    if !CanMove(s, m) then s else Made(s, m)
  }

  function Made(s: Table, m: Move): Table
    requires CanMove(s, m)
  {
    match m
    case CallLock(t, path) => s.(places := s.places[t := LockWaitsTable(path)])
    case CallRelease(t, path) => s.(places := s.places[t := ReleaseWaitsTable(path)])
    case TakeTable(t) =>
      var path := At(s, t).path;
      if At(s, t).LockWaitsTable? then
        s.(table := {t}, places := s.places[t := LockWaitsPath(path)],
           locked := if path in s.locked then s.locked else s.locked[path := false])
      else s.(table := {t}, places := s.places[t := ReleaseUnlocks(path)])
    case LockPath(t) =>
      var path := At(s, t).path;
      s.(locked := s.locked[path := true], places := s.places[t := LockReturns(path)])
    case UnlockPath(t) =>
      var path := At(s, t).path;
      s.(locked := if path in s.locked then s.locked[path := false] else s.locked,
         holds := s.holds - {(t, path)}, places := s.places[t := ReleaseReturns(path)])
    case Return(t) =>
      var path := At(s, t).path;
      s.(table := s.table - {t}, places := s.places[t := Outside], completed := s.completed + 1,
         holds := if At(s, t).LockReturns? then s.holds + {(t, path)} else s.holds)
  }

  const EMPTY := Table({}, map[], map[], {}, 0)

  predicate Feasible(s: Table, moves: seq<Move>) {
    Runs.Possible(CanMove, Make, s, moves)
  }

  function MakeAll(s: Table, moves: seq<Move>): Table {
    Runs.Run(Make, s, moves)
  }

  // ---------------------------------------------------------------- every interleaving

  predicate InsideTable(p: Place) {
    p.LockWaitsPath? || p.LockReturns? || p.ReleaseUnlocks? || p.ReleaseReturns?
  }

  // The thread has the path's mutex: its lock has taken it and no release has given it back.
  predicate Owns(s: Table, t: Thread, path: string) {
    (t, path) in s.holds || At(s, t) == LockReturns(path)
  }

  ghost predicate TableFits(s: Table) {
    && (forall t: Thread :: t in s.table <==> InsideTable(At(s, t)))
    && (forall t, u | t in s.table && u in s.table :: t == u)
  }

  // At most one thread has a path's mutex, and it is locked exactly while one has it.
  ghost predicate OwnersFit(s: Table) {
    && (forall t: Thread, u: Thread, path | Owns(s, t, path) && Owns(s, u, path) :: t == u)
    && (forall t: Thread, path | Owns(s, t, path) :: path in s.locked && s.locked[path])
    && (forall path | path in s.locked && s.locked[path] :: exists t: Thread :: Owns(s, t, path))
  }

  ghost predicate PlacesFit(s: Table) {
    && (forall t: Thread | At(s, t).LockWaitsPath? :: At(s, t).path in s.locked)
    && (forall t: Thread | At(s, t).ReleaseWaitsTable? || At(s, t).ReleaseUnlocks? :: (t, At(s, t).path) in s.holds)
    && (forall t: Thread | At(s, t).LockReturns? :: (t, At(s, t).path) !in s.holds)
  }

  ghost predicate LockInvariant(s: Table) {
    TableFits(s) && OwnersFit(s) && PlacesFit(s)
  }

  // Ownership changes only when a path mutex is locked or unlocked.
  lemma OwnsAfter(s: Table, m: Move, u: Thread, path: string)
    requires CanMove(s, m) && PlacesFit(s)
    ensures Owns(Make(s, m), u, path) <==>
            match m
            case LockPath(t) => Owns(s, u, path) || (u == t && path == At(s, t).path)
            case UnlockPath(t) => Owns(s, u, path) && !(u == t && path == At(s, t).path)
            case _ => Owns(s, u, path)
  {
  }

  lemma MoveKeepsOwners(s: Table, m: Move)
    requires LockInvariant(s) && CanMove(s, m)
    ensures OwnersFit(Make(s, m))
  {
    var n := Make(s, m);
    forall u: Thread, path { OwnsAfter(s, m, u, path); }
    if m.UnlockPath? { assert Owns(s, m.t, At(s, m.t).path); }
    forall path | path in n.locked && n.locked[path] ensures exists t: Thread :: Owns(n, t, path) {
      if m.LockPath? && path == At(s, m.t).path {
        assert Owns(n, m.t, path);
      } else {
        var t: Thread :| Owns(s, t, path);
        assert Owns(n, t, path);
      }
    }
  }

  lemma MoveKeepsPlaces(s: Table, m: Move)
    requires LockInvariant(s) && CanMove(s, m)
    ensures TableFits(Make(s, m)) && PlacesFit(Make(s, m))
  {
    var n := Make(s, m);
    assert forall u: Thread | u != m.t :: At(n, u) == At(s, u);
    if m.LockPath? { assert !Owns(s, m.t, At(s, m.t).path); }
  }

  // Over every interleaving in which only holders release: at most one thread holds a path.
  lemma {:induction false} EveryInterleavingFits(s: Table, moves: seq<Move>)
    requires LockInvariant(s) && Feasible(s, moves)
    ensures LockInvariant(MakeAll(s, moves))
    decreases moves
  {
    if moves != [] {
      MoveKeepsOwners(s, moves[0]);
      MoveKeepsPlaces(s, moves[0]);
      EveryInterleavingFits(Make(s, moves[0]), moves[1..]);
    }
  }

  lemma MutualExclusion(moves: seq<Move>, t: Thread, u: Thread, path: string)
    requires Feasible(EMPTY, moves)
    ensures (t, path) in MakeAll(EMPTY, moves).holds && (u, path) in MakeAll(EMPTY, moves).holds ==> t == u
  {
    EveryInterleavingFits(EMPTY, moves);
    assert Owns(MakeAll(EMPTY, moves), t, path) <== (t, path) in MakeAll(EMPTY, moves).holds;
    assert Owns(MakeAll(EMPTY, moves), u, path) <== (u, path) in MakeAll(EMPTY, moves).holds;
  }

  // ---------------------------------------------------------------- blocking

  // A lock call that gets the table finds its path mutex locked if and only if some thread
  // holds that path.
  lemma BlocksIffHeld(s: Table, t: Thread)
    requires LockInvariant(s) && CanMove(s, TakeTable(t)) && At(s, t).LockWaitsTable?
    ensures var path := At(s, t).path;
            !CanMove(Make(s, TakeTable(t)), LockPath(t)) <==> exists u: Thread :: (u, path) in s.holds
  {
    var path := At(s, t).path;
    if path in s.locked && s.locked[path] {
      var u: Thread :| Owns(s, u, path);
      assert !InsideTable(At(s, u));
      assert (u, path) in s.holds;
    } else if exists u: Thread :: (u, path) in s.holds {
      var u: Thread :| (u, path) in s.holds;
      assert Owns(s, u, path);
    }
  }

  // As written, the waiter keeps the table mutex.
  predicate StuckOn(s: Table, t: Thread) {
    t in s.table && At(s, t).LockWaitsPath? && At(s, t).path in s.locked && s.locked[At(s, t).path]
  }

  lemma StuckStays(s: Table, t: Thread, m: Move)
    requires LockInvariant(s) && StuckOn(s, t) && CanMove(s, m)
    ensures m.CallLock? || m.CallRelease?
    ensures StuckOn(Make(s, m), t) && Make(s, m).completed == s.completed && Make(s, m).holds == s.holds
  {
    assert m.t in s.table || !InsideTable(At(s, m.t));
  }

  // From then on no lock and no release ever returns, whatever the threads do, and the holder
  // can never give the path back.
  lemma {:induction false} StuckForever(s: Table, t: Thread, moves: seq<Move>)
    requires LockInvariant(s) && StuckOn(s, t) && Feasible(s, moves)
    ensures var end := MakeAll(s, moves);
            StuckOn(end, t) && end.completed == s.completed && end.holds == s.holds
    decreases moves
  {
    if moves != [] {
      StuckStays(s, t, moves[0]);
      MoveKeepsOwners(s, moves[0]);
      MoveKeepsPlaces(s, moves[0]);
      StuckForever(Make(s, moves[0]), t, moves[1..]);
    }
  }

  // The move makes a lock call enter the table although some thread holds its path.
  ghost predicate LocksHeld(s: Table, m: Move) {
    m.TakeTable? && At(s, m.t).LockWaitsTable? && exists u: Thread :: (u, At(s, m.t).path) in s.holds
  }

  ghost predicate SomeLocksHeld(s: Table, moves: seq<Move>)
    decreases moves
  {
    moves != [] && (LocksHeld(s, moves[0]) || SomeLocksHeld(Make(s, moves[0]), moves[1..]))
  }

  ghost predicate SomeStuck(s: Table) {
    exists t: Thread :: StuckOn(s, t)
  }

  lemma LockingHeldSticks(s: Table, m: Move)
    requires LockInvariant(s) && CanMove(s, m) && LocksHeld(s, m)
    ensures StuckOn(Make(s, m), m.t)
  {
    BlocksIffHeld(s, m.t);
  }

  lemma OtherMovesDoNotStick(s: Table, m: Move)
    requires LockInvariant(s) && CanMove(s, m) && !LocksHeld(s, m) && !SomeStuck(s)
    ensures !SomeStuck(Make(s, m))
  {
    forall t: Thread ensures !StuckOn(Make(s, m), t) {
      assert !StuckOn(s, t);
      if m.TakeTable? && t == m.t && At(s, t).LockWaitsTable? {
        BlocksIffHeld(s, t);
      } else if m.LockPath? && t != m.t {
        assert !(InsideTable(At(s, t)) && InsideTable(At(s, m.t)));
      }
    }
  }

  // A run blocks on a path mutex if and only if one of its lock calls took the table while
  // its path was held: runs that never lock a held path never block on a path mutex.
  lemma {:induction false} RunBlocksIffLocksHeld(s: Table, moves: seq<Move>)
    requires LockInvariant(s) && Feasible(s, moves) && !SomeStuck(s)
    ensures SomeStuck(MakeAll(s, moves)) <==> SomeLocksHeld(s, moves)
    decreases moves
  {
    if moves != [] {
      var m, next := moves[0], Make(s, moves[0]);
      MoveKeepsOwners(s, m);
      MoveKeepsPlaces(s, m);
      if LocksHeld(s, m) {
        LockingHeldSticks(s, m);
        StuckForever(next, m.t, moves[1..]);
      } else {
        OtherMovesDoNotStick(s, m);
        RunBlocksIffLocksHeld(next, moves[1..]);
      }
    }
  }

  predicate Internal(m: Move) {
    !m.CallLock? && !m.CallRelease?
  }

  // The exact condition: while a call is in progress, some call can advance if and only if
  // no thread waits on a held path.
  lemma AdvancesIffNotStuck(s: Table, busy: Thread)
    requires LockInvariant(s) && !At(s, busy).Outside?
    ensures (exists m :: Internal(m) && CanMove(s, m)) <==> forall t: Thread :: !StuckOn(s, t)
  {
    if forall t: Thread :: !StuckOn(s, t) {
      var m := NextMove(s, busy);
      assert Internal(m) && CanMove(s, m);
    } else {
      var t: Thread :| StuckOn(s, t);
      forall m | Internal(m) ensures !CanMove(s, m) {
        if CanMove(s, m) { StuckStays(s, t, m); }
      }
    }
  }

  lemma NextMove(s: Table, busy: Thread) returns (m: Move)
    requires LockInvariant(s) && !At(s, busy).Outside? && forall t: Thread :: !StuckOn(s, t)
    ensures Internal(m) && CanMove(s, m)
  {
    if s.table == {} {
      assert !InsideTable(At(s, busy));
      return TakeTable(busy);
    }
    var t :| t in s.table;
    assert InsideTable(At(s, t)) && !StuckOn(s, t);
    return match At(s, t)
           case LockWaitsPath(_) => LockPath(t)
           case ReleaseUnlocks(_) => UnlockPath(t)
           case _ => Return(t);
  }

  // ---------------------------------------------------------------- lock and release in turn

  lemma MakeFirst(s: Table, first: Move, rest: seq<Move>)
    ensures MakeAll(s, [first] + rest) == MakeAll(Make(s, first), rest)
    ensures Feasible(s, [first] + rest) <==> CanMove(s, first) && Feasible(Make(s, first), rest)
  {
    Runs.RunFirst(CanMove, Make, s, first, rest);
  }

  function LockMoves(t: Thread, path: string): seq<Move> {
    [CallLock(t, path), TakeTable(t), LockPath(t), Return(t)]
  }

  function ReleaseMoves(t: Thread, path: string): seq<Move> {
    [CallRelease(t, path), TakeTable(t), UnlockPath(t), Return(t)]
  }

  // No call is inside, and the thread is not in a call.
  predicate Free(s: Table, t: Thread) {
    s.table == {} && At(s, t).Outside?
  }

  lemma FourMoves(s: Table, a: Move, b: Move, c: Move, d: Move)
    ensures MakeAll(s, [a, b, c, d]) == Make(Make(Make(Make(s, a), b), c), d)
    ensures Feasible(s, [a, b, c, d]) <==>
            CanMove(s, a) && CanMove(Make(s, a), b) && CanMove(Make(Make(s, a), b), c)
            && CanMove(Make(Make(Make(s, a), b), c), d)
  {
    var s1 := Make(s, a);
    var s2 := Make(s1, b);
    var s3 := Make(s2, c);
    MakeFirst(s3, d, []);
    MakeFirst(s2, c, [d]);
    MakeFirst(s1, b, [c, d]);
    MakeFirst(s, a, [b, c, d]);
    assert [d] + [] == [d] && [c] + [d] == [c, d] && [b] + [c, d] == [b, c, d] && [a] + [b, c, d] == [a, b, c, d];
  }

  lemma FreePathIsUnlocked(s: Table, path: string)
    requires LockInvariant(s) && s.table == {} && forall u: Thread :: (u, path) !in s.holds
    ensures path in s.locked ==> !s.locked[path]
  {
    assert forall u: Thread :: !InsideTable(At(s, u));
    assert forall u: Thread :: !Owns(s, u, path);
  }

  // A lock of a path nobody holds goes through, and leaves the thread outside with the path,
  // the table free and everybody else where they were.
  lemma FreeLockCompletes(s: Table, t: Thread, path: string)
    requires LockInvariant(s) && Free(s, t) && forall u: Thread :: (u, path) !in s.holds
    ensures Feasible(s, LockMoves(t, path))
    ensures MakeAll(s, LockMoves(t, path))
         == Table({}, s.locked[path := true], s.places[t := Outside], s.holds + {(t, path)}, s.completed + 1)
  {
    FreePathIsUnlocked(s, path);
    FourMoves(s, CallLock(t, path), TakeTable(t), LockPath(t), Return(t));
  }

  // A release by the holder goes through, and leaves the path free.
  lemma HolderReleases(s: Table, t: Thread, path: string)
    requires LockInvariant(s) && Free(s, t) && (t, path) in s.holds
    ensures Feasible(s, ReleaseMoves(t, path))
    ensures MakeAll(s, ReleaseMoves(t, path))
         == Table({}, s.locked[path := false], s.places[t := Outside], s.holds - {(t, path)}, s.completed + 1)
  {
    assert Owns(s, t, path);
    FourMoves(s, CallRelease(t, path), TakeTable(t), UnlockPath(t), Return(t));
  }

  // Taken in turn, lock and release hand a path on: once one thread has locked and released
  // it, another thread's lock of it completes.
  lemma PathIsHandedOn(s: Table, t: Thread, u: Thread, path: string)
    requires LockInvariant(s) && Free(s, t) && Free(s, u) && forall v: Thread :: (v, path) !in s.holds
    ensures var held := MakeAll(s, LockMoves(t, path));
            var freed := MakeAll(held, ReleaseMoves(t, path));
            var end := MakeAll(freed, LockMoves(u, path));
            && Feasible(s, LockMoves(t, path)) && Feasible(held, ReleaseMoves(t, path))
            && Feasible(freed, LockMoves(u, path))
            && freed.holds == s.holds && Free(freed, t) && path in freed.locked && !freed.locked[path]
            && (u, path) in end.holds && Free(end, u) && end.completed == s.completed + 3
  {
    FreeLockCompletes(s, t, path);
    EveryInterleavingFits(s, LockMoves(t, path));
    var held := MakeAll(s, LockMoves(t, path));
    HolderReleases(held, t, path);
    EveryInterleavingFits(held, ReleaseMoves(t, path));
    var freed := MakeAll(held, ReleaseMoves(t, path));
    FreeLockCompletes(freed, u, path);
  }

  // Two threads and one path are enough: thread 1 locks, thread 2's lock waits with the table
  // mutex, and thread 1's release, called later, can never take it.
  const FIRST_LOCKS := LockMoves(1, "/f")
  const SECOND_WAITS := [CallLock(2, "/f"), TakeTable(2), CallRelease(1, "/f")]
  const LOCKED := Table({}, map["/f" := true], map[1 := Outside], {(1, "/f")}, 1)
  const BLOCKED := Table({2}, map["/f" := true],
                         map[1 := ReleaseWaitsTable("/f"), 2 := LockWaitsPath("/f")], {(1, "/f")}, 1)

  lemma FirstLocks()
    ensures Feasible(EMPTY, FIRST_LOCKS) && MakeAll(EMPTY, FIRST_LOCKS) == LOCKED
  {
    FreeLockCompletes(EMPTY, 1, "/f");
  }

  lemma SecondWaits()
    ensures Feasible(LOCKED, SECOND_WAITS) && MakeAll(LOCKED, SECOND_WAITS) == BLOCKED && StuckOn(BLOCKED, 2)
  {
    var s1 := Make(LOCKED, CallLock(2, "/f"));
    var s2 := Make(s1, TakeTable(2));
    MakeFirst(s2, CallRelease(1, "/f"), []);
    MakeFirst(s1, TakeTable(2), [CallRelease(1, "/f")]);
    MakeFirst(LOCKED, CallLock(2, "/f"), [TakeTable(2), CallRelease(1, "/f")]);
    assert [CallRelease(1, "/f")] + [] == [CallRelease(1, "/f")];
    assert [TakeTable(2)] + [CallRelease(1, "/f")] == [TakeTable(2), CallRelease(1, "/f")];
    assert [CallLock(2, "/f")] + [TakeTable(2), CallRelease(1, "/f")] == SECOND_WAITS;
  }

  // The waiter is meant to proceed once the holder calls release; it never does.
  lemma WaiterNeverProceeds(more: seq<Move>)
    requires Feasible(BLOCKED, more)
    ensures Feasible(EMPTY, FIRST_LOCKS) && Feasible(MakeAll(EMPTY, FIRST_LOCKS), SECOND_WAITS)
    ensures MakeAll(MakeAll(EMPTY, FIRST_LOCKS), SECOND_WAITS) == BLOCKED
    ensures var end := MakeAll(BLOCKED, more);
            StuckOn(end, 2) && (1, "/f") in end.holds && end.completed == 1
  {
    FirstLocks();
    SecondWaits();
    EveryInterleavingFits(EMPTY, FIRST_LOCKS);
    EveryInterleavingFits(LOCKED, SECOND_WAITS);
    StuckForever(BLOCKED, 2, more);
  }
}
