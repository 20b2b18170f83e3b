/** The two-pass layout of a volume (pkg/iso9660/volume.go): addresses are assigned from the
  lengths of everything, then everything is written with those addresses in it. */
module Layout {
  import opened Prelude
  import opened Sectors
  import opened Susp
  import opened Continuation
  import opened Directory
  import opened RecordScan
  import opened DirectoryExtent
  import opened Inode
  import opened Packing
  import opened ToDirectory
  import opened Placement
  import opened Descriptor

  datatype Ref = DirRef(index: nat) | FileRef(index: nat) | LinkRef

  /** An entry of a directory, without addresses. */
  datatype Node = Node(identifier: Bytes, entries: seq<Entry>, ref: Ref, stamp: Bytes)

  /** The directories in the order they are visited, each with `.`, `..` and its children; what the
    path table says of each (identifier and parent index); the sizes of the files in their order. */
  datatype Tree = Tree(dirs: seq<seq<Node>>, paths: seq<(Bytes, nat)>, files: seq<nat>)

  ghost predicate NodeOk(tree: Tree, n: Node) {
    |n.identifier| <= MAX_IDENTIFIER && AllValid(n.entries) && |n.stamp| == 7
    && (n.ref.DirRef? ==> n.ref.index < |tree.dirs|) && (n.ref.FileRef? ==> n.ref.index < |tree.files|)
  }

  ghost predicate NodesOk(tree: Tree, nodes: seq<Node>) { forall i | 0 <= i < |nodes| :: NodeOk(tree, nodes[i]) }

  ghost predicate TreeOk(tree: Tree) {
    0 < |tree.dirs| == |tree.paths|
      && (forall d | 0 <= d < |tree.dirs| :: tree.dirs[d] != [] && NodesOk(tree, tree.dirs[d]))
    && forall d | 0 <= d < |tree.paths| :: |tree.paths[d].0| <= MAX_IDENTIFIER
  }

  /** What the inodes hold: addresses, and the sizes of directories. */
  datatype State = State(dirStart: seq<Lba>, dirSize: seq<Uint32>, fileStart: seq<Lba>)

  ghost predicate StateOk(tree: Tree, st: State) {
    |st.dirStart| == |st.dirSize| == |tree.dirs| && |st.fileStart| == |tree.files|
    && forall d | 0 <= d < |st.dirSize| :: st.dirSize[d] <= 0xFFFF_F800
  }

  /** `Parts` of an inode. */
  function PartsOf(tree: Tree, st: State, ref: Ref): seq<Part>
    requires StateOk(tree, st)
    requires (ref.DirRef? ==> ref.index < |tree.dirs|) && (ref.FileRef? ==> ref.index < |tree.files|)
  {
    match ref
    case DirRef(i) => PartsFrom(st.dirStart[i], PartSizes(st.dirSize[i]))
    case FileRef(i) => PartsFrom(st.fileStart[i], PartSizes(tree.files[i]))
    case LinkRef => PartsFrom(0, PartSizes(0))
  }

  function ItemOf(tree: Tree, st: State, n: Node): Item
    requires StateOk(tree, st) && NodeOk(tree, n)
  {
    Item(n.identifier, n.entries, PartsOf(tree, st, n.ref), n.ref.DirRef?, n.stamp)
  }

  function Items(tree: Tree, st: State, nodes: seq<Node>): (r: seq<Item>)
    requires StateOk(tree, st) && NodesOk(tree, nodes)
    ensures |r| == |nodes| && forall i | 0 <= i < |r| :: r[i] == ItemOf(tree, st, nodes[i])
  {
    seq(|nodes|, i requires 0 <= i < |nodes| => assert NodeOk(tree, nodes[i]); ItemOf(tree, st, nodes[i]))
  }

  lemma ItemsInOrder(tree: Tree, st: State, nodes: seq<Node>)
    requires StateOk(tree, st) && NodesOk(tree, nodes)
    ensures ItemsOk(Items(tree, st, nodes)) == true
  {
    forall i | 0 <= i < |nodes| ensures ItemOk(Items(tree, st, nodes)[i]) {
      assert NodeOk(tree, nodes[i]);
    }
  }

  /** How many parts an inode has does not depend on the state. */
  lemma PartsSame(tree: Tree, st: State, st': State, ref: Ref)
    requires StateOk(tree, st) && StateOk(tree, st')
    requires (ref.DirRef? ==> ref.index < |tree.dirs|) && (ref.FileRef? ==> ref.index < |tree.files|)
    ensures |PartsOf(tree, st, ref)| == |PartsOf(tree, st', ref)|
  {
  }

  lemma ItemsSame(tree: Tree, st: State, st': State, nodes: seq<Node>)
    requires StateOk(tree, st) && StateOk(tree, st') && NodesOk(tree, nodes)
    ensures SameShape(Items(tree, st, nodes), Items(tree, st', nodes)) == true
  {
    forall i | 0 <= i < |nodes| ensures SameItem(Items(tree, st, nodes)[i], Items(tree, st', nodes)[i]) {
      assert NodeOk(tree, nodes[i]);
      PartsSame(tree, st, st', nodes[i].ref);
    }
  }

  // ----- lengths -----

  function Zero(tree: Tree): (st: State)
    ensures StateOk(tree, st)
  {
    State(seq(|tree.dirs|, _ => 0), seq(|tree.dirs|, _ => 0), seq(|tree.files|, _ => 0))
  }

  /** A directory packed: its continuation area and its records. */
  function PackDir(tree: Tree, st: State, d: nat, cont: Lba): (seq<Sector>, seq<Record>)
    requires StateOk(tree, st) && TreeOk(tree) && d < |tree.dirs|
  {
    ItemsInOrder(tree, st, tree.dirs[d]);
    Pack(cont, Items(tree, st, tree.dirs[d]))
  }

  lemma PackDirInOrder(tree: Tree, st: State, d: nat, cont: Lba)
    requires StateOk(tree, st) && TreeOk(tree) && d < |tree.dirs|
    ensures var p := PackDir(tree, st, d, cont); AreaOk(p.0) == true && AllOk(p.1) == true
  {
    ItemsInOrder(tree, st, tree.dirs[d]);
    PackInOrder(cont, Items(tree, st, tree.dirs[d]));
  }

  function Extent(tree: Tree, st: State, d: nat, cont: Lba): Bytes
    requires StateOk(tree, st) && TreeOk(tree) && d < |tree.dirs|
  {
    PackDirInOrder(tree, st, d, cont);
    Laid(0, Pieces(PackDir(tree, st, d, cont).1))
  }

  /** The bytes of a directory, and the sectors of its continuation area. */
  function DirBytes(tree: Tree, d: nat): nat
    requires TreeOk(tree) && d < |tree.dirs|
  {
    |Extent(tree, Zero(tree), d, 0)|
  }

  function ContSectors(tree: Tree, d: nat): nat
    requires TreeOk(tree) && d < |tree.dirs|
  {
    |PackDir(tree, Zero(tree), d, 0).0|
  }

  ghost predicate SameSizes(a: seq<Bytes>, b: seq<Bytes>) { |a| == |b| && forall i | 0 <= i < |a| :: |a[i]| == |b[i]| }

  lemma {:induction false} LaidSame(written: nat, a: seq<Bytes>, b: seq<Bytes>)
    requires SameSizes(a, b)
    ensures |Laid(written, a)| == |Laid(written, b)|
    decreases |a|
  {
    if a != [] { LaidSame(written + Gap(written, |a[0]|) + |a[0]|, a[1..], b[1..]); }
  }

  lemma PiecesSame(a: seq<Record>, b: seq<Record>)
    requires AllOk(a) && AllOk(b) && SameRecordLens(a, b)
    ensures SameSizes(Pieces(a), Pieces(b)) == true
  {
    forall i | 0 <= i < |a| ensures |Pieces(a)[i]| == |Pieces(b)[i]| {
      EncodeRecordLen(a[i]);
      EncodeRecordLen(b[i]);
    }
  }

  /** The length of a directory and of its continuation area are the same in every state. */
  lemma LengthsFixed(tree: Tree, st: State, d: nat, cont: Lba)
    requires StateOk(tree, st) && TreeOk(tree) && d < |tree.dirs|
    ensures |Extent(tree, st, d, cont)| == DirBytes(tree, d) && |PackDir(tree, st, d, cont).0| == ContSectors(tree, d)
  {
    var nodes, zero := tree.dirs[d], Zero(tree);
    ItemsInOrder(tree, st, nodes);
    ItemsInOrder(tree, zero, nodes);
    ItemsSame(tree, st, zero, nodes);
    PackSame(cont, 0, Items(tree, st, nodes), Items(tree, zero, nodes));
    PackDirInOrder(tree, st, d, cont);
    PackDirInOrder(tree, zero, d, 0);
    var a, b := PackDir(tree, st, d, cont).1, PackDir(tree, zero, d, 0).1;
    PiecesSame(a, b);
    LaidSame(0, Pieces(a), Pieces(b));
  }

  // ----- the path table -----

  function PathRecordLen(identifier: Bytes): nat { 8 + |identifier| + |identifier| % 2 }

  function PathsLen(paths: seq<(Bytes, nat)>): nat {
    if paths == [] then 0 else PathsLen(paths[..|paths| - 1]) + PathRecordLen(paths[|paths| - 1].0)
  }

  /** `n` bytes of a number, in either byte order. */
  function Number(v: nat, n: nat, big: bool): (r: Bytes)
    ensures |r| == n
  {
    if n == 0 then []
    else if big then Number(v / 0x100, n - 1, big) + [v % 0x100]
    else [v % 0x100] + Number(v / 0x100, n - 1, big)
  }

  function PathRecord(identifier: Bytes, location: Lba, parent: nat, big: bool): (r: Bytes)
    requires |identifier| <= MAX_IDENTIFIER
    ensures |r| == PathRecordLen(identifier)
  {
    [|identifier|, 0] + Number(location, 4, big) + Number(parent, 2, big) + identifier + Zeros(|identifier| % 2)
  }

  /** The encoded table: its length does not depend on the locations in it. */
  function PathTable(paths: seq<(Bytes, nat)>, starts: seq<Lba>, big: bool): (r: Bytes)
    requires |paths| == |starts| && forall d | 0 <= d < |paths| :: |paths[d].0| <= MAX_IDENTIFIER
    ensures |r| == PathsLen(paths)
  {
    if paths == [] then []
    else
      var last := |paths| - 1;
      PathTable(paths[..last], starts[..last], big) + PathRecord(paths[last].0, starts[last], paths[last].1, big)
  }

  /** The number that some bytes spell, in either byte order. */
  function NumberOf(b: Bytes, big: bool): nat {
    if b == [] then 0
    else if big then 0x100 * NumberOf(b[..|b| - 1], big) + b[|b| - 1]
    else b[0] + 0x100 * NumberOf(b[1..], big)
  }

  ghost function Pow256(n: nat): nat { if n == 0 then 1 else 0x100 * Pow256(n - 1) }

  lemma {:induction false} NumberBack(v: nat, n: nat, big: bool)
    requires v < Pow256(n)
    ensures NumberOf(Number(v, n, big), big) == v
  {
    if n > 0 {
      var r := Number(v, n, big);
      NumberBack(v / 0x100, n - 1, big);
      if big { assert r[..|r| - 1] == Number(v / 0x100, n - 1, big); }
      else { assert r[1..] == Number(v / 0x100, n - 1, big); }
    }
  }

  /** What ECMA-119 says of a path table record at the start of `b`: its identifier, location and parent. */
  ghost predicate ReadsPath(b: Bytes, identifier: Bytes, location: Lba, parent: nat, big: bool) {
    |b| >= 8 + |identifier| && b[0] == |identifier| && b[1] == 0 && NumberOf(b[2..6], big) == location
    && NumberOf(b[6..8], big) == parent && b[8..8 + |identifier|] == identifier
  }

  lemma PathRecordReads(identifier: Bytes, location: Lba, parent: nat, big: bool, more: Bytes)
    requires |identifier| <= MAX_IDENTIFIER && parent < 0x1_0000
    ensures ReadsPath(PathRecord(identifier, location, parent, big) + more, identifier, location, parent, big) == true
  {
    var b := PathRecord(identifier, location, parent, big) + more;
    assert Pow256(1) == 0x100 && Pow256(2) == 0x1_0000 && Pow256(3) == 0x100_0000 && Pow256(4) == 0x1_0000_0000;
    NumberBack(location, 4, big);
    NumberBack(parent, 2, big);
    assert b[2..6] == Number(location, 4, big) && b[6..8] == Number(parent, 2, big);
    assert b[8..8 + |identifier|] == identifier;
  }

  /** Entry `d` of a table, read from behind the entries before it, is directory `d`: its identifier, where it starts
    and the number of its parent, in the byte order of the table. */
  lemma {:induction false} PathTableReads(paths: seq<(Bytes, nat)>, starts: seq<Lba>, big: bool, d: nat, more: Bytes)
    requires |paths| == |starts| && (forall d | 0 <= d < |paths| :: |paths[d].0| <= MAX_IDENTIFIER)
    requires d < |paths| && paths[d].1 < 0x1_0000
    ensures PathsLen(paths[..d]) <= |PathTable(paths, starts, big) + more|
    ensures var b := (PathTable(paths, starts, big) + more)[PathsLen(paths[..d])..];
      ReadsPath(b, paths[d].0, starts[d], paths[d].1, big) == true
  {
    var last := |paths| - 1;
    var before := PathTable(paths[..last], starts[..last], big);
    var rec := PathRecord(paths[last].0, starts[last], paths[last].1, big);
    Assoc(before, rec, more);
    if d == last {
      PathRecordReads(paths[d].0, starts[d], paths[d].1, big, more);
      assert (before + (rec + more))[|before|..] == rec + more;
    } else {
      PathTableReads(paths[..last], starts[..last], big, d, rec + more);
      assert paths[..last][..d] == paths[..d];
    }
  }

  // ----- the plan -----

  function PlanOf(tree: Tree): (r: Plan)
    requires TreeOk(tree)
    ensures |r.dirs| == |tree.dirs| && r.files == tree.files
  {
    var dirs := seq(|tree.dirs|, d requires 0 <= d < |tree.dirs| => DirPlan(DirBytes(tree, d), ContSectors(tree, d)));
    Plan(PathsLen(tree.paths), dirs, tree.files)
  }

  /** (Only unfolded where `Unfold(true)` is asserted.) */
  ghost predicate Planned(tree: Tree, plan: Plan) {
    |plan.dirs| == |tree.dirs| && plan.files == tree.files && plan.paths == PathsLen(tree.paths)
    && forall u {:trigger Unfold(u)} :: Unfold(u) ==> TreeOk(tree) && plan == PlanOf(tree)
  }

  lemma PlannedTree(tree: Tree, plan: Plan)
    requires Planned(tree, plan) == true
    ensures TreeOk(tree) == true
  {
    assert Unfold(true);
  }

  lemma PlannedDir(tree: Tree, plan: Plan, st: State, d: nat, cont: Lba)
    requires Planned(tree, plan) == true && StateOk(tree, st) && d < |tree.dirs|
    ensures TreeOk(tree) == true
    ensures |Extent(tree, st, d, cont)| == plan.dirs[d].bytes && |PackDir(tree, st, d, cont).0| == plan.dirs[d].cont
  {
    assert Unfold(true);
    LengthsFixed(tree, st, d, cont);
  }

  method WriteTable(w: Bytes, table: Bytes) returns (r: Bytes)
    requires |w| % 2048 == 0 && table != []
    ensures |r| == |w| + 2048 * SectorsFor(|table|) && w <= r && LiesAt(r, |w|, table) == true
  {
    r := w + table;
    InBack(w, table);
    LiesLonger(r, Zeros(PadLen(|r|)), |w|, table);
    r := r + Zeros(PadLen(|r|));
  }

  method WriteTables(front: Bytes, paths: seq<(Bytes, nat)>, starts: seq<Lba>, lTable: Lba, mTable: Lba)
    returns (w: Bytes)
    requires 0 < |paths| == |starts| && forall d | 0 <= d < |paths| :: |paths[d].0| <= MAX_IDENTIFIER
    requires |front| == SectorsToBytes(lTable) && mTable == lTable + SectorsFor(PathsLen(paths))
    ensures |w| == |front| + 2 * 2048 * SectorsFor(PathsLen(paths)) && front <= w
    ensures TablesLie(w, paths, starts, lTable, mTable) == true
  {
    WholeSectors(lTable);
    var first := WriteTable(front, PathTable(paths, starts, false));
    assert |first| == SectorsToBytes(mTable);
    WholeSectors(mTable);
    w := WriteTable(first, PathTable(paths, starts, true));
    LiesLonger(first, w[|first|..], SectorsToBytes(lTable), PathTable(paths, starts, false));
    assert first + w[|first|..] == w;
  }

  /** Both path tables lie in their places. */
  ghost predicate TablesLie(w: Bytes, paths: seq<(Bytes, nat)>, starts: seq<Lba>, lTable: Lba, mTable: Lba) {
    |paths| == |starts| && (forall d | 0 <= d < |paths| :: |paths[d].0| <= MAX_IDENTIFIER)
    && LiesAt(w, SectorsToBytes(lTable), PathTable(paths, starts, false))
    && LiesAt(w, SectorsToBytes(mTable), PathTable(paths, starts, true))
  }

  lemma TablesStay(w: Bytes, r: Bytes, paths: seq<(Bytes, nat)>, starts: seq<Lba>, lTable: Lba, mTable: Lba)
    requires TablesLie(w, paths, starts, lTable, mTable) && w <= r
    ensures TablesLie(r, paths, starts, lTable, mTable) == true
  {
    LiesLonger(w, r[|w|..], SectorsToBytes(lTable), PathTable(paths, starts, false));
    LiesLonger(w, r[|w|..], SectorsToBytes(mTable), PathTable(paths, starts, true));
    assert w + r[|w|..] == r;
  }

  // ----- the first pass -----

  /** Where the continuation area of a directory is taken to start. */
  function ContOf(st: State, d: nat): Lba
    requires d < |st.dirStart| == |st.dirSize|
  {
    Wrap32(st.dirStart[d] + BytesToSectors(st.dirSize[d]))
  }

  /** The directories up to `n` lie where the plan says. */
  ghost predicate DirsPlaced(plan: Plan, st: State, n: nat) {
    n <= |plan.dirs| && |st.dirStart| == |st.dirSize| == |plan.dirs|
    && forall d | 0 <= d < n :: DirPlaced(plan, st, d)
  }

  ghost predicate DirPlaced(plan: Plan, st: State, d: nat)
    requires d < |plan.dirs| == |st.dirStart| == |st.dirSize|
  {
    st.dirStart[d] == DirStart(plan, d) && st.dirSize[d] == 2048 * SectorsFor(plan.dirs[d].bytes)
  }

  ghost predicate FilesPlaced(plan: Plan, st: State, n: nat) {
    n <= |plan.files| == |st.fileStart| && forall f | 0 <= f < n :: FilePlaced(plan, st, f)
  }

  ghost predicate FilePlaced(plan: Plan, st: State, f: nat)
    requires f < |plan.files| == |st.fileStart|
  {
    st.fileStart[f] == FileStart(plan, f)
  }

  lemma DirPlacedNext(tree: Tree, plan: Plan, st: State, d: nat, start: Lba, size: Uint32)
    requires StateOk(tree, st) == true && DirsPlaced(plan, st, d) == true && d < |plan.dirs|
    requires DirFits(plan.dirs[d]) == true
    requires start == DirStart(plan, d) && size == 2048 * SectorsFor(plan.dirs[d].bytes)
    ensures var st' := st.(dirStart := st.dirStart[d := start], dirSize := st.dirSize[d := size]);
      StateOk(tree, st') == true && DirsPlaced(plan, st', d + 1) == true
  {
    PaddedAlike(plan.dirs[d].bytes);
    var st' := st.(dirStart := st.dirStart[d := start], dirSize := st.dirSize[d := size]);
    forall e | 0 <= e < d + 1 ensures DirPlaced(plan, st', e) {
      if e < d { assert DirPlaced(plan, st, e); }
    }
  }

  lemma DirsStay(plan: Plan, st: State, st': State)
    requires DirsPlaced(plan, st, |plan.dirs|) == true && st'.dirStart == st.dirStart && st'.dirSize == st.dirSize
    ensures DirsPlaced(plan, st', |plan.dirs|) == true
  {
    forall d | 0 <= d < |plan.dirs| ensures DirPlaced(plan, st', d) {
      assert DirPlaced(plan, st, d);
    }
  }

  lemma FilePlacedNext(plan: Plan, st: State, f: nat, start: Lba)
    requires FilesPlaced(plan, st, f) == true && f < |plan.files| && start == FileStart(plan, f)
    ensures FilesPlaced(plan, st.(fileStart := st.fileStart[f := start]), f + 1) == true
  {
    var st' := st.(fileStart := st.fileStart[f := start]);
    forall e | 0 <= e < f + 1 ensures FilePlaced(plan, st', e) {
      if e < f { assert FilePlaced(plan, st, e); }
    }
  }

  class Volume {
    const tree: Tree
    ghost const plan: Plan
    var dirStart: seq<Lba>
    var dirSize: seq<Uint32>
    var fileStart: seq<Lba>
    var pvd: Pvd

    constructor (tree: Tree, pvd: Pvd)
      requires TreeOk(tree) && PvdOk(pvd)
      ensures this.tree == tree && plan == PlanOf(tree) && Planned(tree, plan) && St() == Zero(tree) && this.pvd == pvd
    {
      this.tree := tree;
      plan := PlanOf(tree);
      var zero := Zero(tree);
      dirStart, dirSize, fileStart := zero.dirStart, zero.dirSize, zero.fileStart;
      this.pvd := pvd;
    }

    function St(): State
      reads this
    {
      State(dirStart, dirSize, fileStart)
    }

    ghost predicate Valid()
      reads this
    {
      Planned(tree, plan) == true && Fits(plan) && StateOk(tree, St()) && PvdOk(pvd) == true
    }

    /** The sizes of a directory and of its continuation area; what the inodes hold meanwhile is of no matter. */
    method Measure(d: nat) returns (dsize: Uint32, clen: nat)
      requires Valid() == true && d < |tree.dirs|
      ensures dsize == 2048 * SectorsFor(plan.dirs[d].bytes) && clen == 2048 * plan.dirs[d].cont
    {
      var cont := ContOf(St(), d);
      PlannedDir(tree, plan, St(), d, cont);
      ItemsInOrder(tree, St(), tree.dirs[d]);
      PackDirInOrder(tree, St(), d, cont);
      assert DirFits(plan.dirs[d]);
      PaddedAlike(plan.dirs[d].bytes);
      SectorsAlike(plan.dirs[d].bytes);
      var area, records := PackAll(cont, Items(tree, St(), tree.dirs[d]));
      var w := DirectoryExtent.WriteTo(records);
      dsize, clen := 2048 * BytesToSectors(|w.value|), 2048 * |area.sectors|;
    }

    /** Visits one directory: measures it, allocates it and records its place. */
    method PlaceDir(d: nat, alloc: SectorAllocator)
      requires Valid() == true && d < |plan.dirs| && DirsPlaced(plan, St(), d) == true
      requires alloc.next == DirStart(plan, d) && DirStart(plan, d + 1) < 0x1_0000_0000
      modifies this`dirStart, this`dirSize, alloc
      ensures Valid() == true && DirsPlaced(plan, St(), d + 1) == true && alloc.next == DirStart(plan, d + 1)
    {
      var dsize, clen := Measure(d);
      assert DirFits(plan.dirs[d]) == true;
      var start := AllocDir(alloc, dsize, clen, plan.dirs[d]);
      DirPlacedNext(tree, plan, St(), d, start, dsize);
      dirStart, dirSize := dirStart[d := start], dirSize[d := dsize];
    }

    method PlaceDirs(alloc: SectorAllocator)
      requires Valid() == true && alloc.next == FirstDir(plan)
      modifies this`dirStart, this`dirSize, alloc
      ensures Valid() == true && DirsPlaced(plan, St(), |plan.dirs|) == true
      ensures alloc.next == DirStart(plan, |plan.dirs|)
    {
      StartsFitIn(plan);
      for d := 0 to |tree.dirs|
        invariant Valid() == true && DirsPlaced(plan, St(), d) == true && alloc.next == DirStart(plan, d)
      {
        PlaceDir(d, alloc);
      }
    }

    method PlaceFiles(alloc: SectorAllocator)
      requires Valid() == true && alloc.next == FileStart(plan, 0)
      modifies this`fileStart, alloc
      ensures Valid() == true && FilesPlaced(plan, St(), |plan.files|) == true
      ensures alloc.next == FileStart(plan, |plan.files|)
    {
      StartsFitIn(plan);
      for f := 0 to |tree.files|
        invariant Valid() == true && FilesPlaced(plan, St(), f) == true && alloc.next == FileStart(plan, f)
      {
        assert FileStart(plan, f + 1) < 0x1_0000_0000;
        var start := AllocFile(alloc, tree.files[f]);
        FilePlacedNext(plan, St(), f, start);
        fileStart := fileStart[f := start];
      }
    }

    /** `assignLogicalBlockAddresses`: from whatever the inodes held before, to the planned addresses; the descriptor
      tells where the tables and the root (the directory visited first) are. */
    method AssignAddresses()
      requires Valid() == true
      modifies this
      ensures Valid() == true && DirsPlaced(plan, St(), |plan.dirs|) == true
      ensures FilesPlaced(plan, St(), |plan.files|) == true
      ensures Addressed(old(pvd), pvd, tree, plan, St()) == true
    {
      var alloc := new SectorAllocator();
      PlannedTree(tree, plan);
      StartsFitIn(plan);
      assert DirStart(plan, 0) < 0x1_0000_0000;
      ghost var labels := pvd;
      var lTable, mTable := AllocFixed(alloc, PathsLen(tree.paths));
      PlaceDirs(alloc);
      ghost var before := St();
      PlaceFiles(alloc);
      DirsStay(plan, before, St());
      AddressedNow(labels, tree, plan, St(), lTable, mTable);
      pvd := pvd.(paths := PathsLen(tree.paths), lTable := lTable, mTable := mTable, rootStart := dirStart[0],
        rootLength := dirSize[0], rootModified := tree.dirs[0][0].stamp, space := alloc.next);
    }

    /** Writes a directory and its continuation area, both padded out. */
    method WriteDir(w: Bytes, d: nat) returns (r: Bytes)
      requires Valid() == true && d < |tree.dirs| && |w| % 2048 == 0
      ensures |r| == |w| + 2048 * DirWidth(plan.dirs[d])
      ensures DirAdded(w, r, tree, St(), d, ContOf(St(), d)) == true && w <= r
    {
      var cont := ContOf(St(), d);
      PlannedDir(tree, plan, St(), d, cont);
      ItemsInOrder(tree, St(), tree.dirs[d]);
      PackDirInOrder(tree, St(), d, cont);
      assert DirFits(plan.dirs[d]) == true;
      var area, records := PackAll(cont, Items(tree, St(), tree.dirs[d]));
      var extent := DirectoryExtent.WriteTo(records);
      var image := area.WriteTo();
      r := Padding(w, extent.value, image, plan.dirs[d]);
    }

    /** The system area, the volume descriptors and the path tables. */
    method WriteHead(ghost labels: Pvd) returns (w: Bytes)
      requires Valid() == true && Addressed(labels, pvd, tree, plan, St()) == true
      ensures |w| == 2048 * FirstDir(plan) && FrontLies(w, pvd) == true
      ensures TablesLie(w, tree.paths, dirStart, pvd.lTable, pvd.mTable) == true
    {
      PlannedTree(tree, plan);
      var front := WriteFront(pvd);
      TablesAt(labels, pvd, tree, plan, St());
      assert |front| == SectorsToBytes(pvd.lTable);
      w := WriteTables(front, tree.paths, dirStart, pvd.lTable, pvd.mTable);
      FrontStays(front, w, pvd);
    }

    /** Writes one more directory, at the address assigned to it. */
    method WriteNext(w: Bytes, d: nat) returns (r: Bytes)
      requires Valid() == true && DirsPlaced(plan, St(), |plan.dirs|) == true && d < |plan.dirs|
      requires WrittenUpTo(w, tree, plan, St(), d) == true
      ensures WrittenUpTo(r, tree, plan, St(), d + 1) == true && w <= r
    {
      assert DirPlaced(plan, St(), d);
      assert |w| == SectorsToBytes(dirStart[d]);
      WholeSectors(DirStart(plan, d));
      r := WriteDir(w, d);
      DirsLieNext(w, r, tree, plan, St(), d);
    }

    method WriteDirs(head: Bytes) returns (w: Bytes)
      requires Valid() == true && DirsPlaced(plan, St(), |plan.dirs|) == true && |head| == 2048 * FirstDir(plan)
      ensures WrittenUpTo(w, tree, plan, St(), |plan.dirs|) == true && head <= w
    {
      w := head;
      NoneWritten(w, tree, plan, St());
      for d := 0 to |tree.dirs|
        invariant WrittenUpTo(w, tree, plan, St(), d) == true && head <= w
      {
        w := WriteNext(w, d);
      }
    }

    /** `WriteMetadataTo`: wherever it checks an address, it has written exactly as many sectors, and it stops at the
      start of the first file. */
    method WriteMetadataTo() returns (w: Bytes)
      requires Valid() == true
      modifies this
      ensures Valid() == true && DirsPlaced(plan, St(), |plan.dirs|) == true
      ensures FilesPlaced(plan, St(), |plan.files|) == true
      ensures |w| == 2048 * FileStart(plan, 0) && WrittenUpTo(w, tree, plan, St(), |plan.dirs|) == true
      ensures FrontLies(w, pvd) == true && TablesLie(w, tree.paths, dirStart, pvd.lTable, pvd.mTable) == true
      ensures Addressed(old(pvd), pvd, tree, plan, St()) == true
    {
      ghost var labels := pvd;
      AssignAddresses();
      var head := WriteHead(labels);
      w := WriteDirs(head);
      FrontStays(head, w, pvd);
      TablesStay(head, w, tree.paths, dirStart, pvd.lTable, pvd.mTable);
    }
  }

  /** The descriptor `p` is `labels` with the addresses filled in: the path tables, the root and the whole volume's
    size.
    (Only unfolded where `Unfold(true)` is asserted.) */
  ghost predicate Addressed(labels: Pvd, p: Pvd, tree: Tree, plan: Plan, st: State) {
    forall u {:trigger Unfold(u)} :: Unfold(u) ==>
      |st.dirStart| > 0 && |st.dirSize| > 0 && |tree.dirs| > 0 && tree.dirs[0] != []
      && p == labels.(paths := p.paths, lTable := p.lTable, mTable := p.mTable, rootStart := st.dirStart[0],
        rootLength := st.dirSize[0], rootModified := tree.dirs[0][0].stamp, space := p.space)
      && p.paths == PathsLen(tree.paths) && p.lTable == 18 && p.mTable == 18 + SectorsFor(plan.paths)
      && p.space == FileStart(plan, |plan.files|)
  }

  lemma AddressedNow(labels: Pvd, tree: Tree, plan: Plan, st: State, lTable: Lba, mTable: Lba)
    requires TreeOk(tree) && StateOk(tree, st) && Fits(plan) && plan.paths == PathsLen(tree.paths)
    requires PvdOk(labels) == true
    requires lTable == 18 && mTable == 18 + SectorsFor(plan.paths)
    ensures plan.paths < 0x1_0000_0000 && FileStart(plan, |plan.files|) < 0x1_0000_0000 && |tree.dirs[0][0].stamp| == 7
    ensures var p := labels.(paths := plan.paths, lTable := lTable, mTable := mTable, rootStart := st.dirStart[0],
        rootLength := st.dirSize[0], rootModified := tree.dirs[0][0].stamp, space := FileStart(plan, |plan.files|));
      Addressed(labels, p, tree, plan, st) == true && PvdOk(p) == true
  {
    assert NodesOk(tree, tree.dirs[0]);
    assert NodeOk(tree, tree.dirs[0][0]);
  }

  lemma RootAt(labels: Pvd, p: Pvd, tree: Tree, plan: Plan, st: State)
    requires Addressed(labels, p, tree, plan, st) == true
    ensures |st.dirStart| > 0 && |st.dirSize| > 0 && p.rootStart == st.dirStart[0] && p.rootLength == st.dirSize[0]
  {
    assert Unfold(true);
  }

  lemma TablesAt(labels: Pvd, p: Pvd, tree: Tree, plan: Plan, st: State)
    requires Addressed(labels, p, tree, plan, st) == true
    ensures p.lTable == 18 && p.mTable == 18 + SectorsFor(plan.paths)
  {
    assert Unfold(true);
  }

  // ----- the second pass -----

  /** A directory on the disc: its records and its continuation area, in whole sectors. */
  ghost function DirImage(tree: Tree, st: State, d: nat, cont: Lba): Bytes
    requires StateOk(tree, st) && TreeOk(tree) && d < |tree.dirs|
  {
    PackDirInOrder(tree, st, d, cont);
    Padded(Extent(tree, st, d, cont)) + Image(PackDir(tree, st, d, cont).0)
  }

  /** The directory's image lies at byte `at`. (Only unfolded where `Unfold(true)` is asserted.) */
  ghost predicate DirLies(w: Bytes, at: nat, tree: Tree, st: State, d: nat, cont: Lba) {
    forall u {:trigger Unfold(u)} :: Unfold(u) ==>
      StateOk(tree, st) && TreeOk(tree) && d < |tree.dirs| && LiesAt(w, at, DirImage(tree, st, d, cont))
  }

  ghost predicate DirAdded(w: Bytes, r: Bytes, tree: Tree, st: State, d: nat, cont: Lba) {
    forall u {:trigger Unfold(u)} :: Unfold(u) ==>
      StateOk(tree, st) && TreeOk(tree) && d < |tree.dirs| && r == w + DirImage(tree, st, d, cont)
  }

  lemma DirAddedLies(w: Bytes, r: Bytes, tree: Tree, st: State, d: nat, cont: Lba)
    requires DirAdded(w, r, tree, st, d, cont) == true
    ensures DirLies(r, |w|, tree, st, d, cont) == true
  {
    assert Unfold(true);
    InBack(w, DirImage(tree, st, d, cont));
  }

  lemma DirLiesOn(w: Bytes, r: Bytes, at: nat, tree: Tree, st: State, e: nat, c: Lba, d: nat, cont: Lba)
    requires DirAdded(w, r, tree, st, d, cont) == true && DirLies(w, at, tree, st, e, c) == true
    ensures DirLies(r, at, tree, st, e, c) == true
  {
    assert Unfold(true);
    LiesLonger(w, DirImage(tree, st, d, cont), at, DirImage(tree, st, e, c));
  }

  /** Every directory up to `n` lies in `w` where the plan says. */
  ghost predicate DirsLie(w: Bytes, tree: Tree, plan: Plan, st: State, n: nat)
    requires n <= |plan.dirs| == |st.dirStart| == |st.dirSize|
  {
    forall d | 0 <= d < n :: PlannedLies(w, tree, plan, st, d)
  }

  ghost predicate PlannedLies(w: Bytes, tree: Tree, plan: Plan, st: State, d: nat)
    requires d < |plan.dirs| == |st.dirStart| == |st.dirSize|
  {
    DirLies(w, 2048 * DirStart(plan, d), tree, st, d, ContOf(st, d)) == true
  }

  /** As many sectors are written as the directories before `n` take, and each lies in its place. */
  ghost predicate WrittenUpTo(w: Bytes, tree: Tree, plan: Plan, st: State, n: nat) {
    n <= |plan.dirs| == |st.dirStart| == |st.dirSize| && |w| == 2048 * DirStart(plan, n)
      && DirsLie(w, tree, plan, st, n)
  }

  lemma NoneWritten(w: Bytes, tree: Tree, plan: Plan, st: State)
    requires |plan.dirs| == |st.dirStart| == |st.dirSize| && |w| == 2048 * FirstDir(plan)
    ensures WrittenUpTo(w, tree, plan, st, 0) == true
  {
  }

  lemma DirsLieNext(w: Bytes, r: Bytes, tree: Tree, plan: Plan, st: State, d: nat)
    requires d < |plan.dirs| == |st.dirStart| == |st.dirSize|
    requires DirsLie(w, tree, plan, st, d) == true && |w| == 2048 * DirStart(plan, d)
    requires DirAdded(w, r, tree, st, d, ContOf(st, d)) == true
    ensures DirsLie(r, tree, plan, st, d + 1) == true
  {
    forall e | 0 <= e < d + 1 ensures PlannedLies(r, tree, plan, st, e) == true {
      if e == d {
        DirAddedLies(w, r, tree, st, d, ContOf(st, d));
      } else {
        assert PlannedLies(w, tree, plan, st, e);
        DirLiesOn(w, r, 2048 * DirStart(plan, e), tree, st, e, ContOf(st, e), d, ContOf(st, d));
      }
    }
  }

  lemma LiesLonger(w: Bytes, more: Bytes, at: nat, image: Bytes)
    requires LiesAt(w, at, image)
    ensures LiesAt(w + more, at, image)
  {
    InFront(w, more, at, at + |image|);
  }
}
