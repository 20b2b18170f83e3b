/** What was laid out is read back: each directory lists its records, each record has the
  address that was assigned, and its entries are found through the continuations. */
module ReadBack {
  import opened Prelude
  import opened Sectors
  import opened Continuation
  import opened Expansion
  import opened Directory
  import opened RecordScan
  import opened DirectoryExtent
  import opened Inode
  import opened ToDirectory
  import opened Aliasing
  import opened Placement
  import opened Descriptor
  import opened Layout
  import opened ReadDir

  /** A padded extent and an area behind it, found in an image that starts with `w`. */
  lemma TwoParts(w: Bytes, iso: Bytes, at: nat, behind: nat, a: Bytes, b: Bytes)
    requires LiesAt(w, at, a + b) == true && w <= iso && behind == at + |a|
    ensures LiesAt(iso, at, a) == true && LiesAt(iso, behind, b) == true
  {
    assert iso[at..at + |a + b|] == w[at..at + |a + b|];
    PartLies(iso, at, a + b, 0, |a|);
    PartLies(iso, at, a + b, |a|, |b|);
    assert (a + b)[0..|a|] == a;
    InBack(a, b);
  }

  lemma PaddedSize(b: Bytes)
    requires b != []
    ensures |Padded(b)| == 2048 * SectorsFor(|b|)
  {
  }

  /** Where a placed directory's continuation area starts. */
  lemma ContPlaced(plan: Plan, st: State, d: nat)
    requires Fits(plan) && d < |plan.dirs| == |st.dirStart| == |st.dirSize| && DirPlaced(plan, st, d)
    ensures DirStart(plan, d) + SectorsFor(plan.dirs[d].bytes) < 0x1_0000_0000
    ensures ContOf(st, d) == DirStart(plan, d) + SectorsFor(plan.dirs[d].bytes)
  {
    StartsFitIn(plan);
    assert DirStart(plan, d + 1) < 0x1_0000_0000;
    assert DirFits(plan.dirs[d]);
    PaddedAlike(plan.dirs[d].bytes);
  }

  ghost predicate Complete(w: Bytes, tree: Tree, plan: Plan, st: State) {
    Planned(tree, plan) && Fits(plan) && StateOk(tree, st) && DirsPlaced(plan, st, |plan.dirs|)
    && WrittenUpTo(w, tree, plan, st, |plan.dirs|)
  }

  /** The two parts of a directory, found in the image. */
  lemma DirFound(w: Bytes, tree: Tree, plan: Plan, st: State, iso: Bytes, d: nat)
    requires Complete(w, tree, plan, st) && w <= iso && d < |plan.dirs|
    ensures TreeOk(tree) == true && |Extent(tree, st, d, ContOf(st, d))| == plan.dirs[d].bytes > 0
    ensures AreaOk(PackDir(tree, st, d, ContOf(st, d)).0) == true
    ensures LiesAt(iso, 2048 * DirStart(plan, d), Padded(Extent(tree, st, d, ContOf(st, d)))) == true
    ensures LiesAt(iso, 2048 * ContOf(st, d), Image(PackDir(tree, st, d, ContOf(st, d)).0)) == true
  {
    var cont := ContOf(st, d);
    PlannedDir(tree, plan, st, d, cont);
    assert DirFits(plan.dirs[d]);
    assert DirPlaced(plan, st, d);
    ContPlaced(plan, st, d);
    assert PlannedLies(w, tree, plan, st, d);
    var a, b := DirPieces(w, 2048 * DirStart(plan, d), tree, st, d, cont);
    TwoParts(w, iso, 2048 * DirStart(plan, d), SectorsToBytes(cont), a, b);
  }

  lemma DirPieces(w: Bytes, at: nat, tree: Tree, st: State, d: nat, cont: Lba) returns (a: Bytes, b: Bytes)
    requires DirLies(w, at, tree, st, d, cont) == true
    ensures StateOk(tree, st) && TreeOk(tree) && d < |tree.dirs| && AreaOk(PackDir(tree, st, d, cont).0) == true
    ensures a == Padded(Extent(tree, st, d, cont)) && b == Image(PackDir(tree, st, d, cont).0)
    ensures LiesAt(w, at, a + b) == true
    ensures Extent(tree, st, d, cont) != [] ==> |a| == 2048 * SectorsFor(|Extent(tree, st, d, cont)|)
  {
    assert Unfold(true);
    PackDirInOrder(tree, st, d, cont);
    a, b := Padded(Extent(tree, st, d, cont)), Image(PackDir(tree, st, d, cont).0);
    if Extent(tree, st, d, cont) != [] { PaddedSize(Extent(tree, st, d, cont)); }
  }

  lemma WholeCopied(iso: Bytes, at: nat, image: Bytes)
    requires LiesAt(iso, at, image) && image != []
    ensures Copied(iso, at, |image|) == image
  {
  }

  lemma LowStart(start: nat)
    requires start < 0x20_0000
    ensures Wrap32(2048 * start) == 2048 * start
  {
  }

  /** The section of a placed directory holds its packed records. */
  lemma SectionHolds(w: Bytes, tree: Tree, plan: Plan, st: State, iso: Bytes, d: nat)
    requires Complete(w, tree, plan, st) && w <= iso && d < |plan.dirs| && DirStart(plan, d) < 0x20_0000
    ensures TreeOk(tree) && AllOk(PackDir(tree, st, d, ContOf(st, d)).1) == true
    ensures var section := Section(iso, st.dirStart[d], st.dirSize[d]);
      |section| == st.dirSize[d] && RecordScan.Holds(section, 0, Pieces(PackDir(tree, st, d, ContOf(st, d)).1)) == true
  {
    DirFound(w, tree, plan, st, iso, d);
    assert DirPlaced(plan, st, d);
    LowStart(DirStart(plan, d));
    var cont := ContOf(st, d);
    var extent := Extent(tree, st, d, cont);
    PaddedSize(extent);
    WholeCopied(iso, 2048 * DirStart(plan, d), Padded(extent));
    PackDirInOrder(tree, st, d, cont);
    HoldsAll(Pieces(PackDir(tree, st, d, cont).1), Zeros(PadLen(|extent|)));
  }

  /** Every directory lists exactly the records packed for it, as long as it lies below block 2^21. */
  lemma DirectoryReadsBack(w: Bytes, tree: Tree, plan: Plan, st: State, iso: Bytes, d: nat)
    requires Complete(w, tree, plan, st) && w <= iso && d < |plan.dirs| && DirStart(plan, d) < 0x20_0000
    ensures TreeOk(tree)
    ensures var section := Section(iso, st.dirStart[d], st.dirSize[d]);
      |section| == st.dirSize[d] && Listed(section, 0, DecodeRecord) == Ok(PackDir(tree, st, d, ContOf(st, d)).1)
  {
    SectionHolds(w, tree, plan, st, iso, d);
    assert DirPlaced(plan, st, d);
    var section, recs := Section(iso, st.dirStart[d], st.dirSize[d]), PackDir(tree, st, d, ContOf(st, d)).1;
    PiecesSpell(recs);
    ExtentRoundTrip(section, 0, Pieces(recs), recs, DecodeRecord);
  }

  lemma PartPacked(tree: Tree, st: State, d: nat, cont: Lba, i: nat, j: nat)
    requires TreeOk(tree) && StateOk(tree, st) && d < |tree.dirs| && i < |tree.dirs[d]|
    requires NodeOk(tree, tree.dirs[d][i]) && j < |PartsOf(tree, st, tree.dirs[d][i].ref)|
    ensures ItemsOk(Items(tree, st, tree.dirs[d])) == true
    ensures var at, recs := FirstRecord(cont, Items(tree, st, tree.dirs[d]), i) + j, PackDir(tree, st, d, cont).1;
      at < |recs| && PartRecorded(recs[at], ItemOf(tree, st, tree.dirs[d][i]), j) == true
  {
    ItemsInOrder(tree, st, tree.dirs[d]);
    ItemRecords(cont, Items(tree, st, tree.dirs[d]), i, j);
  }

  /** The records read back for a node: one per part, in place, with all their fields. */
  lemma PartReadsBack(w: Bytes, tree: Tree, plan: Plan, st: State, iso: Bytes, d: nat, i: nat, j: nat)
    requires Complete(w, tree, plan, st) && w <= iso && d < |plan.dirs| && DirStart(plan, d) < 0x20_0000
    requires TreeOk(tree) && i < |tree.dirs[d]| && NodeOk(tree, tree.dirs[d][i])
    requires j < |PartsOf(tree, st, tree.dirs[d][i].ref)|
    ensures ItemsOk(Items(tree, st, tree.dirs[d]))
    ensures var read := Listed(Section(iso, st.dirStart[d], st.dirSize[d]), 0, DecodeRecord);
      var at := FirstRecord(ContOf(st, d), Items(tree, st, tree.dirs[d]), i) + j;
      read.Ok? && at < |read.value| && PartRecorded(read.value[at], ItemOf(tree, st, tree.dirs[d][i]), j) == true
  {
    DirectoryReadsBack(w, tree, plan, st, iso, d);
    PartPacked(tree, st, d, ContOf(st, d), i, j);
  }

  /** A node's first record holds the address assigned to its inode, and its entries are read back through the
    image exactly if the record is not clobbered by a further part. */
  lemma NodeReadsBack(w: Bytes, tree: Tree, plan: Plan, st: State, iso: Bytes, d: nat, i: nat)
    requires Complete(w, tree, plan, st) && w <= iso && d < |plan.dirs| && i < |tree.dirs[d]|
    requires DirStart(plan, d + 1) <= 0x20_0000 && Plain(tree.dirs[d][i].entries)
    ensures TreeOk(tree) && NodeOk(tree, tree.dirs[d][i]) && ItemsOk(Items(tree, st, tree.dirs[d]))
    ensures var recs := PackDir(tree, st, d, ContOf(st, d)).1;
      var at := FirstRecord(ContOf(st, d), Items(tree, st, tree.dirs[d]), i);
      at < |recs| && Recorded(iso, ItemOf(tree, st, tree.dirs[d][i]), recs[at]) == true
  {
    DirFound(w, tree, plan, st, iso, d);
    var cont, nodes := ContOf(st, d), tree.dirs[d];
    ItemsInOrder(tree, st, nodes);
    assert NodeOk(tree, nodes[i]);
    assert DirPlaced(plan, st, d);
    ContPlaced(plan, st, d);
    PlannedDir(tree, plan, st, d, cont);
    ItemReadsBack(cont, Items(tree, st, nodes), i, iso);
  }

  // ----- where the code fails -----

  lemma {:induction false} ZerosList(n: nat, i: nat)
    requires i <= n && 2048 * n < 0x1_0000_0000
    ensures Listed(Zeros(2048 * n), 2048 * i, DecodeRecord) == Ok([])
    decreases n - i
  {
    RoomIs(2048 * i);
    if i < n {
      ZerosList(n, i + 1);
      SkipZeros(n, i);
    }
  }

  lemma SkipZeros(n: nat, i: nat)
    requires i < n && 2048 * n < 0x1_0000_0000
    ensures var dir := Zeros(2048 * n);
      NextRecord(dir, 2048 * i, DecodeRecord) == NextRecord(dir, 2048 * (i + 1), DecodeRecord)
  {
    RoomIs(2048 * i);
    assert Zeros(2048 * n)[2048 * i] == 0;
  }

  lemma ZerosCopied(iso: Bytes, at: nat, n: nat)
    requires LiesAt(iso, 0, Zeros(16 * 2048)) && at + n <= 16 * 2048 && n > 0
    ensures Copied(iso, at, n) == Zeros(n)
  {
    assert Copied(iso, at, n) == iso[at..at + n];
    Within(iso, 0, 16 * 2048, at, at + n);
    assert Zeros(16 * 2048)[at..at + n] == Zeros(n);
  }

  lemma WrapsAround(start: nat)
    ensures Wrap32(2048 * start) == 2048 * (start % 0x20_0000)
  {
  }

  /** What is read for a directory is the section at its block modulo 2^21. */
  lemma SectionWraps(iso: Bytes, start: Lba, size: Uint32)
    ensures Section(iso, start, size) == Section(iso, start % 0x20_0000, size)
  {
    WrapsAround(start);
    WrapsAround(start % 0x20_0000);
  }

  /** From block 2^21 on the byte address of a directory wraps around: one that is taken for part of the system area
    lists nothing, though it has records. */
  lemma HighDirectoryIsLost(w: Bytes, tree: Tree, plan: Plan, st: State, p: Pvd, iso: Bytes, d: nat)
    requires Complete(w, tree, plan, st) && FrontLies(w, p) == true && w <= iso && d < |plan.dirs|
    requires DirStart(plan, d) >= 0x20_0000
    requires DirStart(plan, d) % 0x20_0000 + SectorsFor(plan.dirs[d].bytes) <= 16
    ensures TreeOk(tree) && PackDir(tree, st, d, ContOf(st, d)).1 != []
    ensures Listed(Section(iso, st.dirStart[d], st.dirSize[d]), 0, DecodeRecord) == Ok([])
  {
    DirFound(w, tree, plan, st, iso, d);
    assert DirPlaced(plan, st, d);
    var start, n := DirStart(plan, d), SectorsFor(plan.dirs[d].bytes);
    WrapsAround(start);
    SystemArea(w, iso, p);
    ZerosCopied(iso, 2048 * (start % 0x20_0000), 2048 * n);
    ZerosList(n, 0);
  }
}
