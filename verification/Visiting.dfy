/** The level-order visits of a directory tree (`VisitDirectories` and `VisitFiles`,
  pkg/iso9660/directoryinode.go). */
module Visiting {
  import opened Prelude

  /** Children in the order of their identifiers. */
  datatype Node = Dir(id: nat, children: seq<Node>) | File(id: nat) | Link(id: nat)

  function Size(n: Node): nat {
    if n.Dir? then 1 + SizeAll(n.children) else 1
  }

  function SizeAll(ns: seq<Node>): nat {
    if ns == [] then 0 else Size(ns[0]) + SizeAll(ns[1..])
  }

  /** All directories of some trees, each as often as it occurs. */
  function Dirs(ns: seq<Node>): multiset<Node> {
    if ns == [] then multiset{} else DirsIn(ns[0]) + Dirs(ns[1..])
  }

  function DirsIn(n: Node): multiset<Node> {
    if n.Dir? then multiset{n} + Dirs(n.children) else multiset{}
  }

  function Files(ns: seq<Node>): multiset<Node> {
    if ns == [] then multiset{} else FilesIn(ns[0]) + Files(ns[1..])
  }

  function FilesIn(n: Node): multiset<Node> {
    if n.File? then multiset{n} else if n.Dir? then Files(n.children) else multiset{}
  }

  /** The directories, or the files, among some nodes. */
  function Subdirs(ns: seq<Node>): (r: seq<Node>)
    ensures forall n | n in r :: n.Dir? && n in ns
  {
    if ns == [] then [] else (if ns[0].Dir? then [ns[0]] else []) + Subdirs(ns[1..])
  }

  function Subfiles(ns: seq<Node>): seq<Node> {
    if ns == [] then [] else (if ns[0].File? then [ns[0]] else []) + Subfiles(ns[1..])
  }

  lemma BagAssoc<T>(a: multiset<T>, b: multiset<T>, c: multiset<T>)
    ensures a + (b + c) == a + b + c
  {
  }

  lemma TailJoin<T>(a: seq<T>, b: seq<T>)
    requires a != []
    ensures a + b != [] && (a + b)[0] == a[0] && (a + b)[1..] == a[1..] + b
  {
  }

  lemma DirsCons(ns: seq<Node>, rest: seq<Node>)
    requires ns != [] && ns[1..] == rest
    ensures Dirs(ns) == DirsIn(ns[0]) + Dirs(rest)
  {
  }

  lemma {:induction false} DirsJoin(a: seq<Node>, b: seq<Node>)
    ensures Dirs(a + b) == Dirs(a) + Dirs(b)
  {
    if a == [] {
      assert a + b == b;
    } else {
      DirsJoin(a[1..], b);
      TailJoin(a, b);
      DirsCons(a, a[1..]);
      DirsCons(a + b, a[1..] + b);
      BagAssoc(DirsIn(a[0]), Dirs(a[1..]), Dirs(b));
    }
  }

  lemma FilesCons(ns: seq<Node>, rest: seq<Node>)
    requires ns != [] && ns[1..] == rest
    ensures Files(ns) == FilesIn(ns[0]) + Files(rest)
  {
  }

  lemma {:induction false} FilesJoin(a: seq<Node>, b: seq<Node>)
    ensures Files(a + b) == Files(a) + Files(b)
  {
    if a == [] {
      assert a + b == b;
    } else {
      FilesJoin(a[1..], b);
      TailJoin(a, b);
      FilesCons(a, a[1..]);
      FilesCons(a + b, a[1..] + b);
      BagAssoc(FilesIn(a[0]), Files(a[1..]), Files(b));
    }
  }

  lemma {:induction false} SizeJoin(a: seq<Node>, b: seq<Node>)
    ensures SizeAll(a + b) == SizeAll(a) + SizeAll(b)
  {
    if a == [] { assert a + b == b; } else { SizeJoin(a[1..], b); assert (a + b)[1..] == a[1..] + b; }
  }

  lemma SubdirsCons(ns: seq<Node>)
    requires ns != []
    ensures !ns[0].Dir? ==> Subdirs(ns) == Subdirs(ns[1..])
    ensures ns[0].Dir? ==> Subdirs(ns) != [] && Subdirs(ns)[0] == ns[0] && Subdirs(ns)[1..] == Subdirs(ns[1..])
  {
  }

  /** Picking the directories, or the files, keeps the order. */
  lemma {:induction false} SubdirsJoin(a: seq<Node>, b: seq<Node>)
    ensures Subdirs(a + b) == Subdirs(a) + Subdirs(b)
  {
    if a == [] {
      assert a + b == b;
    } else {
      TailJoin(a, b);
      SubdirsJoin(a[1..], b);
      Assoc(if a[0].Dir? then [a[0]] else [], Subdirs(a[1..]), Subdirs(b));
    }
  }

  lemma {:induction false} SubfilesJoin(a: seq<Node>, b: seq<Node>)
    ensures Subfiles(a + b) == Subfiles(a) + Subfiles(b)
  {
    if a == [] {
      assert a + b == b;
    } else {
      TailJoin(a, b);
      SubfilesJoin(a[1..], b);
      Assoc(if a[0].File? then [a[0]] else [], Subfiles(a[1..]), Subfiles(b));
    }
  }

  lemma SubsOne(n: Node)
    ensures Subdirs([n]) == (if n.Dir? then [n] else []) && Subfiles([n]) == if n.File? then [n] else []
  {
    assert [n][1..] == [];
  }

  lemma SubfilesCons(ns: seq<Node>)
    requires ns != []
    ensures multiset(Subfiles(ns))
      == (if ns[0].File? then multiset{ns[0]} else multiset{}) + multiset(Subfiles(ns[1..]))
  {
  }

  /** Files and links hold no directories; what the queue leaves out is nothing the visit is after. */
  lemma {:induction false} SubdirsHold(ns: seq<Node>)
    ensures Dirs(Subdirs(ns)) == Dirs(ns) && SizeAll(Subdirs(ns)) <= SizeAll(ns)
  {
    if ns != [] {
      SubdirsHold(ns[1..]);
      SubdirsCons(ns);
      DirsCons(ns, ns[1..]);
      if ns[0].Dir? { DirsCons(Subdirs(ns), Subdirs(ns[1..])); }
    }
  }

  lemma {:induction false} SubfilesHold(ns: seq<Node>)
    ensures Files(Subdirs(ns)) + multiset(Subfiles(ns)) == Files(ns)
  {
    if ns != [] {
      SubfilesHold(ns[1..]);
      SubdirsCons(ns);
      SubfilesCons(ns);
      FilesCons(ns, ns[1..]);
      if ns[0].Dir? { FilesCons(Subdirs(ns), Subdirs(ns[1..])); }
    }
  }

  ghost predicate AllDirs(ns: seq<Node>) { forall n | n in ns :: n.Dir? }

  /** A visited directory other than the first is the child of one visited before. */
  ghost predicate ParentBefore(order: seq<Node>, n: Node, i: nat) {
    exists j: nat :: j < i <= |order| && order[j].Dir? && n in order[j].children
  }

  /** The queue after its first directory was visited. */
  function Turned(q: seq<Node>): seq<Node>
    requires q != [] && q[0].Dir?
  {
    q[1..] + Subdirs(q[0].children)
  }

  /** One turn takes one directory and its files, and nothing else, out of what is still to visit. */
  lemma TurnHolds(q: seq<Node>)
    requires q != [] && AllDirs(q)
    ensures AllDirs(Turned(q)) && SizeAll(Turned(q)) < SizeAll(q)
    ensures multiset{q[0]} + Dirs(Turned(q)) == Dirs(q)
    ensures multiset(Subfiles(q[0].children)) + Files(Turned(q)) == Files(q)
  {
    var kids := q[0].children;
    SubdirsHold(kids);
    SubfilesHold(kids);
    SizeJoin(q[1..], Subdirs(kids));
    DirsJoin(q[1..], Subdirs(kids));
    FilesJoin(q[1..], Subdirs(kids));
  }

  /** All that waits in the queue was found in a directory visited before. */
  ghost predicate Waiting(order: seq<Node>, q: seq<Node>) {
    forall n | n in q :: ParentBefore(order, n, |order|)
  }

  lemma WaitingNext(order: seq<Node>, q: seq<Node>)
    requires q != [] && AllDirs(q) && (order == [] ==> q == [q[0]]) && (order != [] ==> Waiting(order, q))
    ensures Waiting(order + [q[0]], Turned(q)) == true
  {
    var d, more := q[0], order + [q[0]];
    forall n | n in Turned(q) ensures ParentBefore(more, n, |more|) {
      if n in Subdirs(d.children) {
        assert more[|order|] == d && n in d.children;
      } else {
        assert n in q[1..] && n in q;
        assert ParentBefore(order, n, |order|);
        var j: nat :| j < |order| && order[j].Dir? && n in order[j].children;
        assert more[j] == order[j];
      }
    }
  }

  // ----- level by level -----

  /** The subdirectories of some directories, in their order. */
  function Kids(level: seq<Node>): seq<Node> {
    if level == [] then []
    else (if level[0].Dir? then Subdirs(level[0].children) else []) + Kids(level[1..])
  }

  lemma {:induction false} KidsSmaller(level: seq<Node>)
    ensures SizeAll(Kids(level)) + |level| <= SizeAll(level)
  {
    if level != [] {
      KidsSmaller(level[1..]);
      if level[0].Dir? {
        SubdirsHold(level[0].children);
        SizeJoin(Subdirs(level[0].children), Kids(level[1..]));
      } else {
        assert [] + Kids(level[1..]) == Kids(level[1..]);
      }
    }
  }

  /** All directories below some, level by level: these, then their subdirectories, and so on. */
  function Levels(level: seq<Node>): seq<Node>
    decreases SizeAll(level)
  {
    if level == [] then [] else KidsSmaller(level); level + Levels(Kids(level))
  }

  /** The files of some directories, in their order. */
  function FilesOf(dirs: seq<Node>): seq<Node> {
    if dirs == [] then []
    else (if dirs[0].Dir? then Subfiles(dirs[0].children) else []) + FilesOf(dirs[1..])
  }

  lemma {:induction false} FilesOfSnoc(dirs: seq<Node>, d: Node)
    requires d.Dir?
    ensures FilesOf(dirs + [d]) == FilesOf(dirs) + Subfiles(d.children)
  {
    if dirs == [] {
      assert (dirs + [d])[1..] == [] && Subfiles(d.children) + [] == Subfiles(d.children);
      assert [] + Subfiles(d.children) == Subfiles(d.children);
    } else {
      FilesOfSnoc(dirs[1..], d);
      assert (dirs + [d])[1..] == dirs[1..] + [d];
    }
  }

  /** The queue holds the rest of one level and what was found of the next: together with what was visited, and the
    levels below, that is everything. (Only unfolded where `Unfold(true)` is asserted.) */
  ghost predicate Amid(all: seq<Node>, order: seq<Node>, q: seq<Node>, rest: nat) {
    forall u {:trigger Unfold(u)} :: Unfold(u) ==>
      rest <= |q| && all == order + q[..rest] + Levels(q[rest..] + Kids(q[..rest]))
  }

  lemma AmidStart(root: Node)
    ensures Amid(Levels([root]), [], [root], 1) == true
  {
    var q := [root];
    assert q[..1] == q && q[1..] == [] && [] + Kids(q) == Kids(q) && [] + q == q;
  }

  /** At the end of a level the next one begins. */
  lemma AmidLevel(all: seq<Node>, order: seq<Node>, q: seq<Node>)
    requires Amid(all, order, q, 0) == true && q != []
    ensures Amid(all, order, q, |q|) == true
  {
    assert Unfold(true);
    assert q[..0] == [] && q[0..] == q && q[..|q|] == q && q[|q|..] == [];
    assert order + [] == order && q + [] == q && [] + Kids(q) == Kids(q);
    Assoc(order, q, Levels(Kids(q)));
  }

  lemma AmidTurn(all: seq<Node>, order: seq<Node>, q: seq<Node>, rest: nat)
    requires Amid(all, order, q, rest) == true && 0 < rest <= |q| && q[0].Dir?
    ensures Amid(all, order + [q[0]], Turned(q), rest - 1) == true
  {
    assert Unfold(true);
    var kids, tail := Subdirs(q[0].children), q[1..rest];
    TurnedCut(q, rest);
    KidsFirst(q[..rest], tail);
    Assoc(q[rest..], kids, Kids(tail));
    Assoc(order, [q[0]], tail);
  }

  lemma TurnedCut(q: seq<Node>, rest: nat)
    requires 0 < rest <= |q| && q[0].Dir?
    ensures q[..rest] == [q[0]] + q[1..rest] && q[..rest][1..] == q[1..rest] && rest - 1 <= |Turned(q)|
    ensures Turned(q)[..rest - 1] == q[1..rest] && Turned(q)[rest - 1..] == q[rest..] + Subdirs(q[0].children)
  {
  }

  lemma KidsFirst(level: seq<Node>, tail: seq<Node>)
    requires level != [] && level[0].Dir? && level[1..] == tail
    ensures Kids(level) == Subdirs(level[0].children) + Kids(tail)
  {
  }

  lemma AmidNext(all: seq<Node>, order: seq<Node>, q: seq<Node>, rest: nat) returns (left: nat)
    requires Amid(all, order, q, rest) == true && rest <= |q| && q != [] && q[0].Dir?
    ensures left <= |Turned(q)| && Amid(all, order + [q[0]], Turned(q), left) == true
  {
    var now := if rest == 0 then |q| else rest;
    if rest == 0 { AmidLevel(all, order, q); }
    AmidTurn(all, order, q, now);
    left := now - 1;
  }

  lemma AmidEnd(all: seq<Node>, order: seq<Node>)
    requires Amid(all, order, [], 0) == true
    ensures order == all
  {
    assert Unfold(true);
    var none: seq<Node> := [];
    assert none[..0] == none && none[0..] == none && order + none == order && none + none == none;
  }

  /** Every directory is visited as often as it occurs, level by level, and none before its parent. */
  method VisitDirectories(root: Node) returns (order: seq<Node>)
    requires root.Dir?
    ensures order == Levels([root]) && multiset(order) == Dirs([root])
    ensures order != [] && order[0] == root && forall i | 0 < i < |order| :: ParentBefore(order, order[i], i)
  {
    order := [];
    var q := [root];
    ghost var all, dirs, rest: nat := Levels(q), Dirs(q), 1;
    AmidStart(root);
    while q != []
      invariant AllDirs(q) == true && rest <= |q| && Amid(all, order, q, rest) == true
      invariant Visited(root, order, q) == true && multiset(order) + Dirs(q) == dirs
      decreases SizeAll(q)
    {
      rest := AmidNext(all, order, q, rest);
      TurnHolds(q);
      VisitedNext(root, order, q);
      order, q := order + [q[0]], Turned(q);
    }
    AmidEnd(all, order);
  }

  /** The root first, and all others after their parents. */
  ghost predicate Visited(root: Node, order: seq<Node>, q: seq<Node>) {
    (if order == [] then q == [root] else order[0] == root && Waiting(order, q))
    && forall i | 0 < i < |order| :: ParentBefore(order, order[i], i)
  }

  lemma VisitedNext(root: Node, order: seq<Node>, q: seq<Node>)
    requires q != [] && AllDirs(q) && Visited(root, order, q)
    ensures Visited(root, order + [q[0]], Turned(q)) == true
  {
    WaitingNext(order, q);
    assert order != [] ==> ParentBefore(order, q[0], |order|);
    Earlier(order, q[0]);
  }

  lemma Earlier(order: seq<Node>, d: Node)
    requires forall i | 0 < i < |order| :: ParentBefore(order, order[i], i)
    requires order != [] ==> ParentBefore(order, d, |order|)
    ensures var more := order + [d]; forall i | 0 < i < |more| :: ParentBefore(more, more[i], i)
  {
    var more := order + [d];
    forall i | 0 < i < |more| ensures ParentBefore(more, more[i], i) {
      assert ParentBefore(order, more[i], i);
      var j: nat :| j < i <= |order| && order[j].Dir? && more[i] in order[j].children;
      assert more[j] == order[j];
    }
  }

  lemma FilesTurn(order: seq<Node>, q: seq<Node>, files: multiset<Node>)
    requires q != [] && AllDirs(q) && multiset(order) + Files(q) == files
    ensures multiset(order + Subfiles(q[0].children)) + Files(Turned(q)) == files
    ensures AllDirs(Turned(q)) == true && SizeAll(Turned(q)) < SizeAll(q)
  {
    TurnHolds(q);
    BagAssoc(multiset(order), multiset(Subfiles(q[0].children)), Files(Turned(q)));
  }

  /** Every file is visited as often as it occurs, directory by directory in their order. */
  method VisitFiles(root: Node) returns (order: seq<Node>)
    requires root.Dir?
    ensures order == FilesOf(Levels([root])) && multiset(order) == Files([root])
  {
    order := [];
    var q := [root];
    ghost var all, files, visited, rest: nat := Levels(q), Files(q), [], 1;
    AmidStart(root);
    while q != []
      invariant AllDirs(q) == true && multiset(order) + Files(q) == files
      invariant rest <= |q| && Amid(all, visited, q, rest) == true && order == FilesOf(visited)
      decreases SizeAll(q)
    {
      rest := AmidNext(all, visited, q, rest);
      FilesTurn(order, q, files);
      FilesOfSnoc(visited, q[0]);
      order, q, visited := order + Subfiles(q[0].children), Turned(q), visited + [q[0]];
    }
    AmidEnd(all, visited);
  }

  // ----- the path table -----

  /** What a visit hands on: the directory it is in, its identifier there, and the directory itself. */
  datatype Relationship = Relationship(parent: nat, identifier: Bytes, child: nat)

  /** The last of the first `m` visits that was to inode `n`. */
  function LastSeen(rels: seq<Relationship>, m: nat, n: nat): (r: Option<nat>)
    requires m <= |rels|
    ensures match r
      case Some(j) => j < m && rels[j].child == n && forall k | j < k < m :: rels[k].child != n
      case None => forall k | 0 <= k < m :: rels[k].child != n
  {
    if m == 0 then None else if rels[m - 1].child == n then Some(m - 1) else LastSeen(rels, m - 1, n)
  }

  /** The visit to the parent of the `i`-th directory; the root is its own. */
  function ParentVisit(rels: seq<Relationship>, i: nat): Option<nat>
    requires i < |rels|
  {
    LastSeen(rels, i + 1, rels[i].parent)
  }

  ghost predicate Entered(rels: seq<Relationship>, i: nat, entry: (Bytes, nat))
    requires i < |rels|
  {
    entry.0 == rels[i].identifier && ParentVisit(rels, i).Some? && entry.1 == ParentVisit(rels, i).value % 0x1_0000
  }

  ghost predicate Indexed(rels: seq<Relationship>, m: nat, indices: map<nat, nat>)
    requires m <= |rels|
  {
    forall n: nat {:trigger LastSeen(rels, m, n)} ::
      match LastSeen(rels, m, n)
      case Some(j) => n in indices && indices[n] == j % 0x1_0000
      case None => n !in indices
  }

  lemma IndexedNext(rels: seq<Relationship>, m: nat, indices: map<nat, nat>, after: map<nat, nat>)
    requires m < |rels| && Indexed(rels, m, indices) && after == indices[rels[m].child := m % 0x1_0000]
    ensures Indexed(rels, m + 1, after) == true
  {
    forall n: nat {:trigger LastSeen(rels, m + 1, n)}
      ensures match LastSeen(rels, m + 1, n)
        case Some(j) => n in after && after[n] == j % 0x1_0000
        case None => n !in after
    {
      var before := LastSeen(rels, m, n);
    }
  }

  /** `ToPathTable`: an entry per visit, with the number of the visit to its parent, in 16 bits; nothing if a parent
    was never visited, where the code panics. */
  method ToPathTable(rels: seq<Relationship>) returns (table: Option<seq<(Bytes, nat)>>)
    ensures table.Some? <==> forall i: nat | i < |rels| :: ParentVisit(rels, i).Some?
    ensures table.Some? ==> |table.value| == |rels| && forall i: nat | i < |rels| :: Entered(rels, i, table.value[i])
  {
    var indices: map<nat, nat> := map[];
    var records: seq<(Bytes, nat)> := [];
    var idx := 0;
    for i := 0 to |rels|
      invariant idx == i % 0x1_0000 && |records| == i && Indexed(rels, i, indices) == true
      invariant forall k: nat | k < i :: Entered(rels, k, records[k]) == true
    {
      IndexedNext(rels, i, indices, indices[rels[i].child := idx]);
      indices := indices[rels[i].child := idx];
      idx := (idx + 1) % 0x1_0000;
      var parent := ParentVisit(rels, i);
      if rels[i].parent !in indices {
        return None;
      }
      records := records + [(rels[i].identifier, indices[rels[i].parent])];
      assert Entered(rels, i, records[i]) == true;
    }
    forall k: nat | k < |rels| ensures ParentVisit(rels, k).Some? { assert Entered(rels, k, records[k]); }
    table := Some(records);
  }
}
