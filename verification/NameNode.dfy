// The name node: a mutable namespace, directory listings over it, and the choice of data
// nodes for a write. Clock readings are parameters.

module NameNode {
  import opened Streams
  import opened Walks

  datatype FileBlock = FileBlock(blockId: string, size: nat, replicas: seq<string>, checksum: string)

  datatype FileMetadata = FileMetadata(path: string, isDirectory: bool, size: nat, created: int, modified: int,
                                       blocks: seq<FileBlock>, attributes: map<string, string>)

  type Namespace = map<string, FileMetadata>

  // The operations that change the namespace; Copy is the file system's copy, which creates
  // an empty entry of the same kind.
  datatype Op =
    | Create(path: string, isDirectory: bool, now: int)
    | Delete(path: string)
    | Rename(from: string, to: string, now: int)
    | Copy(from: string, to: string, now: int)
  {
    // The path the operation is about to store under or to remove.
    function Target(): string {
      if Create? || Delete? then path else to
    }
  }

  predicate Succeeds(ns: Namespace, op: Op) {
    match op
    case Create(path, _, _) => path !in ns
    case Delete(path) => path in ns
    case Rename(from, to, _) => from in ns && to !in ns
    case Copy(from, to, _) => from in ns && to !in ns
  }

  function NewEntry(path: string, isDirectory: bool, now: int): FileMetadata {
    FileMetadata(path, isDirectory, 0, now, now, [], map[])
  }

  function Apply(ns: Namespace, op: Op): Namespace {
    if !Succeeds(ns, op) then ns
    else
      match op
      case Create(path, isDirectory, now) => ns[path := NewEntry(path, isDirectory, now)]
      case Delete(path) => ns - {path}
      case Rename(from, to, now) => (ns - {from})[to := ns[from].(path := to, modified := now)]
      case Copy(from, to, now) => ns[to := NewEntry(to, ns[from].isDirectory, now)]
  }

  function ApplyAll(ns: Namespace, ops: seq<Op>): Namespace
    decreases ops
  {
    if ops == [] then ns else ApplyAll(Apply(ns, ops[0]), ops[1..])
  }

  // ---------------------------------------------------------------- namespace runs

  predicate KeysAreNames(ns: Namespace) {
    forall p | p in ns :: ns[p].path == p
  }

  // How a successful operation changes the number of entries.
  function Growth(ns: Namespace, op: Op): int {
    if !Succeeds(ns, op) || op.Rename? then 0 else if op.Delete? then -1 else 1
  }

  function GrowthAll(ns: Namespace, ops: seq<Op>): int
    decreases ops
  {
    if ops == [] then 0 else Growth(ns, ops[0]) + GrowthAll(Apply(ns, ops[0]), ops[1..])
  }

  lemma PutCounts<V>(m: map<string, V>, key: string, value: V)
    requires key !in m
    ensures |m[key := value]| == |m| + 1
  {
    assert m[key := value].Keys == m.Keys + {key};
  }

  lemma RemoveCounts<V>(m: map<string, V>, key: string)
    requires key in m
    ensures |m - {key}| == |m| - 1
  {
    assert (m - {key}).Keys == m.Keys - {key};
  }

  lemma ApplyKeepsNames(ns: Namespace, op: Op)
    requires KeysAreNames(ns)
    ensures KeysAreNames(Apply(ns, op))
  {
  }

  lemma ApplyCounts(ns: Namespace, op: Op)
    ensures |Apply(ns, op)| == |ns| + Growth(ns, op)
  {
    if Succeeds(ns, op) {
      match op
      case Create(path, isDirectory, now) => PutCounts(ns, path, NewEntry(path, isDirectory, now));
      case Delete(path) => RemoveCounts(ns, path);
      case Rename(from, to, now) =>
        RemoveCounts(ns, from);
        PutCounts(ns - {from}, to, ns[from].(path := to, modified := now));
      case Copy(from, to, now) => PutCounts(ns, to, NewEntry(to, ns[from].isDirectory, now));
    }
  }

  // After any run every entry is stored under its own path, and the number of entries is
  // what successful creations added less what successful deletions took.
  lemma {:induction false} RunKeepsNamesAndCount(ns: Namespace, ops: seq<Op>)
    requires KeysAreNames(ns)
    ensures KeysAreNames(ApplyAll(ns, ops))
    ensures |ApplyAll(ns, ops)| == |ns| + GrowthAll(ns, ops)
    decreases ops
  {
    if ops != [] {
      ApplyKeepsNames(ns, ops[0]);
      ApplyCounts(ns, ops[0]);
      RunKeepsNamesAndCount(Apply(ns, ops[0]), ops[1..]);
    }
  }

  // Where the entry now stored under path ends up: renames move it, deletion removes it.
  function FollowOne(ns: Namespace, op: Op, path: string): Option<string> {
    if !Succeeds(ns, op) then Some(path)
    else
      match op
      case Delete(gone) => if gone == path then None else Some(path)
      case Rename(from, to, _) => Some(if from == path then to else path)
      case _ => Some(path)
  }

  function Follow(ns: Namespace, ops: seq<Op>, path: string): Option<string>
    decreases ops
  {
    if ops == [] then Some(path)
    else
      match FollowOne(ns, ops[0], path)
      case None => None
      case Some(next) => Follow(Apply(ns, ops[0]), ops[1..], next)
  }

  // Everything but the path and the modification time.
  predicate SameFile(a: FileMetadata, b: FileMetadata) {
    b == a.(path := b.path, modified := b.modified)
  }

  // Over any run, an entry that is not deleted keeps its kind, size, creation time, blocks
  // and attributes, wherever renames take it.
  lemma {:induction false} EntrySurvivesRun(ns: Namespace, ops: seq<Op>, path: string)
    requires path in ns && Follow(ns, ops, path).Some?
    ensures var end := Follow(ns, ops, path).value;
            end in ApplyAll(ns, ops) && SameFile(ns[path], ApplyAll(ns, ops)[end])
    decreases ops
  {
    if ops != [] {
      EntrySurvivesRun(Apply(ns, ops[0]), ops[1..], FollowOne(ns, ops[0], path).value);
    }
  }

  // Two entries never end up under one path: no operation overwrites an entry.
  lemma {:induction false} EntriesStayApart(ns: Namespace, ops: seq<Op>, a: string, b: string)
    requires a in ns && b in ns && a != b
    requires Follow(ns, ops, a).Some? && Follow(ns, ops, b).Some?
    ensures Follow(ns, ops, a).value != Follow(ns, ops, b).value
    decreases ops
  {
    if ops != [] {
      EntriesStayApart(Apply(ns, ops[0]), ops[1..], FollowOne(ns, ops[0], a).value, FollowOne(ns, ops[0], b).value);
    }
  }

  // Some operation of the run created the entry that ends up under path, with this kind and time.
  predicate CreatedIn(ns: Namespace, ops: seq<Op>, path: string, isDirectory: bool, created: int)
    decreases ops
  {
    && ops != []
    && var next := Apply(ns, ops[0]);
       || (CreatesAs(ns, ops[0], isDirectory, created) && Follow(next, ops[1..], ops[0].Target()) == Some(path))
       || CreatedIn(next, ops[1..], path, isDirectory, created)
  }

  predicate CreatesAs(ns: Namespace, op: Op, isDirectory: bool, created: int) {
    && Succeeds(ns, op)
    && match op
       case Create(_, kind, now) => kind == isDirectory && now == created
       case Copy(from, _, now) => ns[from].isDirectory == isDirectory && now == created
       case _ => false
  }

  lemma CreationMakesEntry(ns: Namespace, op: Op, isDirectory: bool, created: int)
    requires CreatesAs(ns, op, isDirectory, created)
    ensures op.Target() in Apply(ns, op) && Apply(ns, op)[op.Target()] == NewEntry(op.Target(), isDirectory, created)
  {
  }

  lemma {:induction false} CreatedIsFound(ns: Namespace, ops: seq<Op>, path: string, isDirectory: bool, created: int)
    requires CreatedIn(ns, ops, path, isDirectory, created)
    ensures path in ApplyAll(ns, ops) && SameFile(NewEntry(path, isDirectory, created), ApplyAll(ns, ops)[path])
    decreases ops
  {
    var next, rest := Apply(ns, ops[0]), ops[1..];
    if CreatedIn(next, rest, path, isDirectory, created) {
      CreatedIsFound(next, rest, path, isDirectory, created);
    } else {
      CreationMakesEntry(ns, ops[0], isDirectory, created);
      EntrySurvivesRun(next, rest, ops[0].Target());
    }
  }

  // Where an entry stood before one operation, unless that operation created it.
  lemma EntryBefore(ns: Namespace, op: Op, path: string) returns (before: Option<string>)
    requires path in Apply(ns, op)
    ensures before.Some? ==> before.value in ns && FollowOne(ns, op, before.value) == Some(path)
    ensures before.None? ==> var e := Apply(ns, op)[path];
                             CreatesAs(ns, op, e.isDirectory, e.created) && op.Target() == path
  {
    if Succeeds(ns, op) && !op.Delete? && path == op.Target() {
      return if op.Rename? then Some(op.from) else None;
    }
    return Some(path);
  }

  lemma {:induction false} FoundHasOrigin(ns: Namespace, ops: seq<Op>, path: string) returns (start: Option<string>)
    requires path in ApplyAll(ns, ops)
    ensures start.Some? ==> start.value in ns && Follow(ns, ops, start.value) == Some(path)
    ensures start.None? ==> var e := ApplyAll(ns, ops)[path]; CreatedIn(ns, ops, path, e.isDirectory, e.created)
    decreases ops
  {
    if ops == [] {
      return Some(path);
    }
    start := FoundHasOrigin(Apply(ns, ops[0]), ops[1..], path);
    if start.Some? {
      EntrySurvivesRun(Apply(ns, ops[0]), ops[1..], start.value);
      start := EntryBefore(ns, ops[0], start.value);
    }
  }

  // After a run from the empty namespace, a path is found exactly when an operation of the run
  // created it or what was renamed to it, and then with that operation's kind and time.
  lemma FoundIffCreated(ops: seq<Op>, path: string, isDirectory: bool, created: int)
    ensures var ns := ApplyAll(map[], ops);
            CreatedIn(map[], ops, path, isDirectory, created) <==>
            path in ns && ns[path].path == path && SameFile(NewEntry(path, isDirectory, created), ns[path])
  {
    RunKeepsNamesAndCount(map[], ops);
    if CreatedIn(map[], ops, path, isDirectory, created) {
      CreatedIsFound(map[], ops, path, isDirectory, created);
    } else if path in ApplyAll(map[], ops) {
      var start := FoundHasOrigin(map[], ops, path);
    }
  }

  // What get_metadata finds under a path.
  function Stored(ns: Namespace, path: string): Option<FileMetadata> {
    if path in ns then Some(ns[path]) else None
  }

  lemma {:induction false} ApplySnoc(ns: Namespace, ops: seq<Op>, op: Op)
    ensures ApplyAll(ns, ops + [op]) == Apply(ApplyAll(ns, ops), op)
    decreases ops
  {
    if ops == [] {
      assert ops + [op] == [op] && [op][1..] == [];
    } else {
      assert (ops + [op])[0] == ops[0] && (ops + [op])[1..] == ops[1..] + [op];
      ApplySnoc(Apply(ns, ops[0]), ops[1..], op);
    }
  }

  // A creation after any run succeeds exactly when nothing is found under the path, and then
  // an empty entry is found there; it changes nothing else.
  lemma CreateAfterRun(ops: seq<Op>, path: string, isDirectory: bool, now: int)
    ensures var ns, op := ApplyAll(map[], ops), Create(path, isDirectory, now);
            var next := ApplyAll(map[], ops + [op]);
            && (Succeeds(ns, op) <==> Stored(ns, path).None?)
            && Stored(next, path) == (if Stored(ns, path).Some? then Stored(ns, path)
                                      else Some(FileMetadata(path, isDirectory, 0, now, now, [], map[])))
            && forall q | q != path :: Stored(next, q) == Stored(ns, q)
  {
    ApplySnoc(map[], ops, Create(path, isDirectory, now));
  }

  // A deletion succeeds exactly when something is found, of either kind, and then nothing is
  // found there any more; it changes nothing else.
  lemma DeleteAfterRun(ops: seq<Op>, path: string)
    ensures var ns, next := ApplyAll(map[], ops), ApplyAll(map[], ops + [Delete(path)]);
            && (Succeeds(ns, Delete(path)) <==> Stored(ns, path).Some?)
            && Stored(next, path).None?
            && forall q | q != path :: Stored(next, q) == Stored(ns, q)
  {
    ApplySnoc(map[], ops, Delete(path));
  }

  // A renaming succeeds exactly when the source is found and the target is not, and then the
  // entry is found under the target, up to its path and modification time, and the source is
  // not; otherwise it changes nothing.
  lemma RenameAfterRun(ops: seq<Op>, from: string, to: string, now: int)
    ensures var ns, op := ApplyAll(map[], ops), Rename(from, to, now);
            var next := ApplyAll(map[], ops + [op]);
            && (Succeeds(ns, op) <==> Stored(ns, from).Some? && Stored(ns, to).None?)
            && (if Stored(ns, from).Some? && Stored(ns, to).None? then
                  && Stored(next, from).None?
                  && Stored(next, to) == Some(ns[from].(path := to, modified := now))
                else next == ns)
            && forall q | q != from && q != to :: Stored(next, q) == Stored(ns, q)
  {
    ApplySnoc(map[], ops, Rename(from, to, now));
  }

  // A copy succeeds under the same condition, keeps the source, and stores an empty entry of
  // the source's kind under the target.
  lemma CopyAfterRun(ops: seq<Op>, from: string, to: string, now: int)
    ensures var ns, op := ApplyAll(map[], ops), Copy(from, to, now);
            var next := ApplyAll(map[], ops + [op]);
            && (Succeeds(ns, op) <==> Stored(ns, from).Some? && Stored(ns, to).None?)
            && (if Stored(ns, from).Some? && Stored(ns, to).None? then
                  Stored(next, to) == Some(FileMetadata(to, ns[from].isDirectory, 0, now, now, [], map[]))
                else next == ns)
            && forall q | q != to :: Stored(next, q) == Stored(ns, q)
  {
    ApplySnoc(map[], ops, Copy(from, to, now));
  }

  // Renaming there and back restores the namespace up to the modification time.
  lemma RenameBack(ns: Namespace, from: string, to: string, now: int, later: int)
    requires KeysAreNames(ns) && Succeeds(ns, Rename(from, to, now))
    ensures ApplyAll(ns, [Rename(from, to, now), Rename(to, from, later)])
         == ns[from := ns[from].(modified := later)]
  {
    var ops := [Rename(from, to, now), Rename(to, from, later)];
    var there := Apply(ns, ops[0]);
    assert ops[1..][0] == ops[1] && ops[1..][1..] == [];
    assert ApplyAll(there, ops[1..]) == Apply(there, ops[1]);
  }

  // ---------------------------------------------------------------- directory listing

  predicate EndsWithSlash(s: string) {
    s != "" && s[|s| - 1] == '/'
  }

  function Prefix(dir: string): string {
    if dir != "" && !EndsWithSlash(dir) then dir + "/" else dir
  }

  predicate Listed(dir: string, path: string) {
    Prefix(dir) <= path && path != dir && '/' !in path[|Prefix(dir)|..]
  }

  function Listing(dir: string, order: seq<string>): (names: seq<string>)
    decreases order
  {
    if order == [] then []
    else
      var last := order[|order| - 1];
      Listing(dir, order[..|order| - 1]) + if Listed(dir, last) then [last[|Prefix(dir)|..]] else []
  }

  // The directory part of a path, up to and including its last slash.
  function Parent(path: string): (p: string)
    ensures p <= path && '/' !in path[|p|..]
    ensures p != "" ==> EndsWithSlash(p)
  {
    ParentTo(path, |path|)
  }

  function ParentTo(path: string, n: nat): (p: string)
    requires n <= |path|
    ensures p <= path && |p| <= n && forall k | |p| <= k < n :: path[k] != '/'
    ensures p != "" ==> EndsWithSlash(p)
  {
    if n == 0 || path[n - 1] == '/' then path[..n] else ParentTo(path, n - 1)
  }

  lemma ParentIs(path: string, n: nat)
    requires n <= |path| && '/' !in path[n..] && (n > 0 ==> path[n - 1] == '/')
    ensures Parent(path) == path[..n]
  {
    var p := Parent(path);
    assert forall k | n <= k < |path| :: path[k] == path[n..][k - n];
    assert p == path[..|p|];
    assert |p| == n;
  }

  // A directory lists exactly the other paths whose directory part is its prefix.
  lemma ListedIff(dir: string, path: string)
    ensures Listed(dir, path) <==> path != dir && Prefix(dir) == Parent(path)
  {
    if Listed(dir, path) {
      assert Prefix(dir) == path[..|Prefix(dir)|];
      ParentIs(path, |Prefix(dir)|);
    }
  }

  lemma SamePrefixIff(a: string, b: string)
    ensures Prefix(a) == Prefix(b) <==>
            || a == b
            || (a != "" && !EndsWithSlash(a) && a + "/" == b)
            || (b != "" && !EndsWithSlash(b) && b + "/" == a)
  {
    if Prefix(a) == Prefix(b) {
      if Prefix(a) == a + "/" && Prefix(b) == b + "/" {
        assert a == (a + "/")[..|a|] && b == (b + "/")[..|b|];
      }
    }
  }

  // Every path with a directory part that does not itself end in a slash is listed, and by
  // one directory only, up to a trailing slash in how that directory is written.
  lemma ListingsPartition(path: string, a: string, b: string)
    requires Parent(path) != "" && !EndsWithSlash(path)
    ensures Listed(Parent(path), path)
    ensures Listed(a, path) && Listed(b, path) ==> a == b || a + "/" == b || b + "/" == a
  {
    ListedIff(Parent(path), path);
    ListedIff(a, path);
    ListedIff(b, path);
    SamePrefixIff(a, b);
  }

  lemma {:induction false} ListingIsExact(dir: string, order: seq<string>)
    requires forall i, j | 0 <= i < j < |order| :: order[i] != order[j]
    ensures forall name :: name in Listing(dir, order) <==>
                           Prefix(dir) + name in order && Listed(dir, Prefix(dir) + name)
    ensures forall i, j | 0 <= i < j < |Listing(dir, order)| :: Listing(dir, order)[i] != Listing(dir, order)[j]
    decreases order
  {
    if order != [] {
      var init, last, pre := order[..|order| - 1], order[|order| - 1], Prefix(dir);
      ListingIsExact(dir, init);
      assert forall p :: p in order <==> p in init || p == last;
      if Listed(dir, last) {
        var name := last[|pre|..];
        assert pre + name == last;
        assert forall other: string :: pre + other == last ==> other == (pre + other)[|pre|..];
      }
    }
  }

  // ---------------------------------------------------------------- data node selection

  type u64 = n: nat | n < SIZE_LIMIT

  datatype DataNode = DataNode(name: string, host: string, port: nat, capacity: u64, usedSpace: u64,
                               isAlive: bool, lastHeartbeat: int)

  // capacity - used_space in unsigned 64-bit arithmetic.
  function Free(n: DataNode): (f: int)
    ensures 0 <= f < SIZE_LIMIT
  {
    if n.usedSpace <= n.capacity then n.capacity - n.usedSpace else n.capacity + SIZE_LIMIT - n.usedSpace
  }

  function TrueFree(n: DataNode): int {
    n.capacity - n.usedSpace
  }

  // What a descending sort by rank leaves.
  predicate Sorted(rank: DataNode -> int, s: seq<DataNode>) {
    forall i, j | 0 <= i < j < |s| :: rank(s[i]) >= rank(s[j])
  }

  // What a selection of up to k of the live nodes by rank may be.
  ghost predicate TopK(rank: DataNode -> int, chosen: seq<DataNode>, live: seq<DataNode>, k: nat) {
    && multiset(chosen) <= multiset(live) && Sorted(rank, chosen)
    && |chosen| == (if |live| > k then k else |live|)
    && forall c, n | c in chosen && n in multiset(live) - multiset(chosen) :: rank(n) <= rank(c)
  }

  function Live(nodes: map<string, DataNode>, order: seq<string>): seq<DataNode>
    requires forall k | k in order :: k in nodes
    decreases order
  {
    if order == [] then []
    else
      var last := nodes[order[|order| - 1]];
      Live(nodes, order[..|order| - 1]) + if last.isAlive then [last] else []
  }

  function Insert(n: DataNode, s: seq<DataNode>): seq<DataNode> {
    if s == [] || Free(n) > Free(s[0]) then [n] + s else [s[0]] + Insert(n, s[1..])
  }

  lemma ConsSorted(head: DataNode, tail: seq<DataNode>)
    requires Sorted(Free, tail) && forall x | x in tail :: Free(x) <= Free(head)
    ensures Sorted(Free, [head] + tail)
  {
  }

  lemma {:induction false} InsertKeeps(n: DataNode, s: seq<DataNode>)
    requires Sorted(Free, s)
    ensures multiset(Insert(n, s)) == multiset(s) + multiset{n} && Sorted(Free, Insert(n, s))
    ensures forall x | x in Insert(n, s) :: x == n || x in s
  {
    if s == [] {
    } else if Free(n) > Free(s[0]) {
      ConsSorted(n, s);
    } else {
      InsertKeeps(n, s[1..]);
      assert s == [s[0]] + s[1..];
      ConsSorted(s[0], Insert(n, s[1..]));
    }
  }

  // std::sort by free space, descending: some sorted permutation.
  method SortByFree(nodes: seq<DataNode>) returns (sorted: seq<DataNode>)
    ensures multiset(sorted) == multiset(nodes) && Sorted(Free, sorted)
  {
    sorted := [];
    for i := 0 to |nodes|
      invariant multiset(sorted) == multiset(nodes[..i]) && Sorted(Free, sorted)
    {
      InsertKeeps(nodes[i], sorted);
      sorted := Insert(nodes[i], sorted);
      assert nodes[..i + 1] == nodes[..i] + [nodes[i]];
    }
    assert nodes[..|nodes|] == nodes;
  }

  lemma RestIsLower(sorted: seq<DataNode>, k: nat, c: DataNode, n: DataNode)
    requires Sorted(Free, sorted) && k < |sorted| && c in sorted[..k] && n in multiset(sorted[k..])
    ensures Free(n) <= Free(c)
  {
    var i :| 0 <= i < k && sorted[..k][i] == c;
    var j :| 0 <= j < |sorted| - k && sorted[k..][j] == n;
    assert sorted[i] == c && sorted[k + j] == n;
  }

  lemma CutSplits(sorted: seq<DataNode>, k: nat)
    requires k < |sorted|
    ensures multiset(sorted) == multiset(sorted[..k]) + multiset(sorted[k..])
  {
    assert sorted == sorted[..k] + sorted[k..];
  }

  // Cutting a sorted permutation leaves the k nodes with most free space: no live node left
  // out has more than one that was taken.
  lemma CutIsTopK(sorted: seq<DataNode>, live: seq<DataNode>, k: nat)
    requires multiset(sorted) == multiset(live) && Sorted(Free, sorted)
    ensures TopK(Free, if |sorted| > k then sorted[..k] else sorted, live, k)
  {
    assert |sorted| == |multiset(sorted)| == |multiset(live)| == |live|;
    if |sorted| > k {
      CutSplits(sorted, k);
      forall c, n | c in sorted[..k] && n in multiset(sorted[k..]) ensures Free(n) <= Free(c) {
        RestIsLower(sorted, k, c, n);
      }
      assert multiset(live) - multiset(sorted[..k]) == multiset(sorted[k..]);
    }
  }

  // ---------------------------------------------------------------- selection by true free space

  predicate OverFull(n: DataNode) {
    n.usedSpace > n.capacity
  }

  // Next to b, the wrapped free space of an over-full a still counts for less.
  predicate Harmless(a: DataNode, b: DataNode) {
    OverFull(a) && !OverFull(b) ==> a.capacity + SIZE_LIMIT - a.usedSpace < b.capacity - b.usedSpace
  }

  lemma HarmlessRanks(a: DataNode, b: DataNode)
    requires Harmless(a, b) && Free(a) >= Free(b)
    ensures TrueFree(a) >= TrueFree(b)
  {
  }

  lemma RankedTruly(chosen: seq<DataNode>, live: seq<DataNode>, k: nat)
    requires TopK(Free, chosen, live, k)
    requires forall a, b | a in live && b in live :: Harmless(a, b)
    ensures TopK(TrueFree, chosen, live, k)
  {
    forall a, b | a in live && b in live && Free(a) >= Free(b) ensures TrueFree(a) >= TrueFree(b) {
      HarmlessRanks(a, b);
    }
    forall x | x in multiset(chosen) || x in multiset(live) - multiset(chosen) ensures x in live {
      assert x in multiset(live);
    }
    forall i, j | 0 <= i < j < |chosen| ensures TrueFree(chosen[i]) >= TrueFree(chosen[j]) {
      assert chosen[i] in multiset(chosen) && chosen[j] in multiset(chosen);
    }
    forall c, n | c in chosen && n in multiset(live) - multiset(chosen) ensures TrueFree(n) <= TrueFree(c) {
      assert c in multiset(chosen);
    }
  }

  // With every live node within its capacity, the selection is a top k by true free space.
  lemma TopKByTrueSpace(chosen: seq<DataNode>, live: seq<DataNode>, k: nat)
    requires TopK(Free, chosen, live, k) && forall x | x in live :: !OverFull(x)
    ensures TopK(TrueFree, chosen, live, k)
  {
    RankedTruly(chosen, live, k);
  }

  lemma {:induction false} SortedExists(nodes: seq<DataNode>) returns (sorted: seq<DataNode>)
    ensures multiset(sorted) == multiset(nodes) && Sorted(Free, sorted)
  {
    if nodes == [] {
      return [];
    }
    var rest := SortedExists(nodes[1..]);
    InsertKeeps(nodes[0], rest);
    assert nodes == [nodes[0]] + nodes[1..];
    return Insert(nodes[0], rest);
  }

  // Nodes that compare equal may change places: the sort is free to leave either first.
  lemma SwapKeepsSorted(s: seq<DataNode>, i: nat, j: nat)
    requires i < j < |s| && Sorted(Free, s) && Free(s[i]) == Free(s[j])
    ensures var t := s[i := s[j]][j := s[i]];
            Sorted(Free, t) && multiset(t) == multiset(s) && t[i] == s[j] && t[j] == s[i]
  {
  }

  lemma IndexOf(s: seq<DataNode>, live: seq<DataNode>, n: DataNode) returns (i: nat)
    requires multiset(s) == multiset(live) && n in live
    ensures i < |s| && s[i] == n
  {
    assert n in multiset(s);
    i :| 0 <= i < |s| && s[i] == n;
  }

  // A sort that leaves a before b, whenever the comparison does not forbid it.
  lemma SortedBefore(live: seq<DataNode>, a: DataNode, b: DataNode)
    returns (s: seq<DataNode>, i: nat, j: nat)
    requires a in live && b in live && a != b && Free(a) >= Free(b)
    ensures multiset(s) == multiset(live) && Sorted(Free, s) && i < j < |s| && s[i] == a && s[j] == b
  {
    s := SortedExists(live);
    i := IndexOf(s, live, a);
    j := IndexOf(s, live, b);
    if j < i {
      SwapKeepsSorted(s, j, i);
      s, i, j := s[j := s[i]][i := s[j]], j, i;
    }
  }

  lemma WholeIsTopK(s: seq<DataNode>, live: seq<DataNode>)
    requires multiset(s) == multiset(live) && Sorted(Free, s)
    ensures TopK(Free, s, live, |live|)
  {
    CutIsTopK(s, live, |live|);
    assert |s| == |multiset(s)| == |multiset(live)| == |live|;
  }

  lemma HarmfulPair(live: seq<DataNode>, a: DataNode, b: DataNode) returns (chosen: seq<DataNode>)
    requires a in live && b in live && !Harmless(a, b)
    ensures TopK(Free, chosen, live, |live|) && !Sorted(TrueFree, chosen)
  {
    var i, j;
    chosen, i, j := SortedBefore(live, a, b);
    WholeIsTopK(chosen, live);
    assert TrueFree(chosen[i]) < TrueFree(chosen[j]);
  }

  // The exact condition: every possible selection, whatever its size, is a top k by true free
  // space if and only if no live over-full node wraps past a live one within its capacity.
  lemma RanksTrulyIff(live: seq<DataNode>)
    ensures (forall chosen, k: nat | TopK(Free, chosen, live, k) :: TopK(TrueFree, chosen, live, k)) <==>
            (forall a, b | a in live && b in live :: Harmless(a, b))
  {
    if forall a, b | a in live && b in live :: Harmless(a, b) {
      forall chosen, k: nat | TopK(Free, chosen, live, k) ensures TopK(TrueFree, chosen, live, k) {
        RankedTruly(chosen, live, k);
      }
    } else {
      var a, b :| a in live && b in live && !Harmless(a, b);
      var chosen := HarmfulPair(live, a, b);
      assert !TopK(TrueFree, chosen, live, |live|);
    }
  }

  const OVERFULL := DataNode("a", "", 0, 10, 11, true, 0)
  const EMPTY_NODE := DataNode("b", "", 0, 1000, 0, true, 0)

  // A concrete wrong choice: the one node taken is over its capacity, the empty one is left out.
  lemma OverfullIsChosen()
    ensures TopK(Free, [OVERFULL], [EMPTY_NODE, OVERFULL], 1)
    ensures !TopK(TrueFree, [OVERFULL], [EMPTY_NODE, OVERFULL], 1)
  {
    var live := multiset([EMPTY_NODE, OVERFULL]);
    assert live == multiset{EMPTY_NODE, OVERFULL} && multiset([OVERFULL]) == multiset{OVERFULL};
    assert live - multiset([OVERFULL]) == multiset{EMPTY_NODE};
    assert OVERFULL in [OVERFULL] && EMPTY_NODE in live - multiset([OVERFULL]);
  }

  // ---------------------------------------------------------------- live nodes

  // The names among keys under which a live node equal to n is stored.
  function Copies(nodes: map<string, DataNode>, keys: seq<string>, n: DataNode): set<string>
    requires forall k | k in keys :: k in nodes
  {
    set k | k in keys && nodes[k] == n && n.isAlive
  }

  lemma CopiesSnoc(nodes: map<string, DataNode>, init: seq<string>, last: string, n: DataNode)
    requires (forall k | k in init + [last] :: k in nodes) && last !in init
    ensures forall k | k in init :: k in nodes
    ensures |Copies(nodes, init + [last], n)|
         == |Copies(nodes, init, n)| + if nodes[last] == n && n.isAlive then 1 else 0
  {
    assert forall k | k in init :: k in init + [last];
    assert last in init + [last];
    assert Copies(nodes, init + [last], n)
        == Copies(nodes, init, n) + if nodes[last] == n && n.isAlive then {last} else {};
  }

  lemma {:induction false} LiveCounts(nodes: map<string, DataNode>, order: seq<string>, n: DataNode)
    requires (forall k | k in order :: k in nodes) && forall i, j | 0 <= i < j < |order| :: order[i] != order[j]
    ensures multiset(Live(nodes, order))[n] == |Copies(nodes, order, n)|
    decreases order
  {
    if order != [] {
      var init, last := order[..|order| - 1], order[|order| - 1];
      assert order == init + [last];
      LiveCounts(nodes, init, n);
      CopiesSnoc(nodes, init, last, n);
    }
  }

  // In whatever order the table is walked, the candidates are the live nodes, one for each name.
  lemma LiveIsExact(nodes: map<string, DataNode>, order: seq<string>, n: DataNode)
    requires IsOrder(order, nodes)
    ensures multiset(Live(nodes, order))[n] == |set k | k in nodes && nodes[k] == n && n.isAlive|
  {
    LiveCounts(nodes, order, n);
    assert (set k | k in nodes && nodes[k] == n && n.isAlive) == Copies(nodes, order, n);
  }

  // ---------------------------------------------------------------- the name node object

  class NameNode {
    var metadata: Namespace
    var dataNodes: map<string, DataNode>
    const replicationFactor: nat

    constructor (replicationFactor: nat)
      ensures metadata == map[] && dataNodes == map[] && this.replicationFactor == replicationFactor
    {
      metadata, dataNodes := map[], map[];
      this.replicationFactor := replicationFactor;
    }

    method CreateFile(path: string, isDirectory: bool, now: int) returns (ok: bool)
      modifies this`metadata
      ensures ok <==> Stored(old(metadata), path).None?
      ensures ok == Succeeds(old(metadata), Create(path, isDirectory, now))
      ensures metadata == Apply(old(metadata), Create(path, isDirectory, now))
    {
      if path in metadata {
        return false;
      }
      metadata := metadata[path := FileMetadata(path, isDirectory, 0, now, now, [], map[])];
      return true;
    }

    method DeleteFile(path: string) returns (ok: bool)
      modifies this`metadata
      ensures ok <==> Stored(old(metadata), path).Some?
      ensures Stored(metadata, path).None?
      ensures ok == Succeeds(old(metadata), Delete(path))
      ensures metadata == Apply(old(metadata), Delete(path))
    {
      if path !in metadata {
        return false;
      }
      metadata := metadata - {path};
      return true;
    }

    method RenameFile(from: string, to: string, now: int) returns (ok: bool)
      modifies this`metadata
      ensures ok <==> Stored(old(metadata), from).Some? && Stored(old(metadata), to).None?
      ensures ok == Succeeds(old(metadata), Rename(from, to, now))
      ensures metadata == Apply(old(metadata), Rename(from, to, now))
    {
      if from !in metadata || to in metadata {
        return false;
      }
      var entry := metadata[from].(path := to, modified := now);
      metadata := metadata - {from};
      metadata := metadata[to := entry];
      return true;
    }

    method GetMetadata(path: string) returns (entry: Option<FileMetadata>)
      ensures entry == Stored(metadata, path)
    {
      if path !in metadata {
        return None;
      }
      return Some(metadata[path]);
    }

    method ListDirectory(path: string) returns (files: seq<string>)
      ensures forall name :: name in files <==> Prefix(path) + name in metadata && Listed(path, Prefix(path) + name)
      ensures forall i, j | 0 <= i < j < |files| :: files[i] != files[j]
    {
      files := [];
      var prefix := path;
      if prefix != "" && prefix[|prefix| - 1] != '/' {
        prefix := prefix + "/";
      }
      var order := WalkOrder(metadata);
      for i := 0 to |order|
        invariant files == Listing(path, order[..i])
      {
        var filePath := order[i];
        if prefix <= filePath && filePath != path {
          var relative := filePath[|prefix|..];
          if '/' !in relative {
            files := files + [relative];
          }
        }
        assert order[..i + 1][..i] == order[..i];
      }
      assert order[..|order|] == order;
      ListingIsExact(path, order);
    }

    method SelectDataNodesForWrite(requested: nat) returns (chosen: seq<DataNode>)
      ensures exists order :: IsOrder(order, dataNodes) &&
                TopK(Free, chosen, Live(dataNodes, order), if requested == 0 then replicationFactor else requested)
    {
      var count := if requested == 0 then replicationFactor else requested;
      var available: seq<DataNode> := [];
      var order := WalkOrder(dataNodes);
      for i := 0 to |order|
        invariant available == Live(dataNodes, order[..i])
      {
        if dataNodes[order[i]].isAlive {
          available := available + [dataNodes[order[i]]];
        }
        assert order[..i + 1][..i] == order[..i];
      }
      assert order[..|order|] == order;
      chosen := SortByFree(available);
      CutIsTopK(chosen, available, count);
      if |chosen| > count {
        chosen := chosen[..count];
      }
    }

    method RegisterDataNode(node: DataNode)
      modifies this`dataNodes
      ensures dataNodes == old(dataNodes)[node.name := node]
    {
      dataNodes := dataNodes[node.name := node];
    }

    method UpdateHeartbeat(id: string, now: int)
      modifies this`dataNodes
      ensures dataNodes == if id in old(dataNodes)
                           then old(dataNodes)[id := old(dataNodes)[id].(lastHeartbeat := now, isAlive := true)]
                           else old(dataNodes)
    {
      if id in dataNodes {
        dataNodes := dataNodes[id := dataNodes[id].(lastHeartbeat := now, isAlive := true)];
      }
    }
  }

  // The distributed file system's copy: read the source entry, then create the target.
  method CopyFile(node: NameNode, src: string, dst: string, now: int) returns (ok: bool)
    modifies node`metadata
    ensures ok <==> Stored(old(node.metadata), src).Some? && Stored(old(node.metadata), dst).None?
    ensures ok == Succeeds(old(node.metadata), Copy(src, dst, now))
    ensures node.metadata == Apply(old(node.metadata), Copy(src, dst, now))
  {
    var source := node.GetMetadata(src);
    if source.None? {
      return false;
    }
    ok := node.CreateFile(dst, source.value.isDirectory, now);
  }
}
