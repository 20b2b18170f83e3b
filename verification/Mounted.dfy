/** A laid-out directory, mounted and listed: whatever was added to it is found again, each child once, under its own
  name (pkg/iso9660/directoryinode.go, inode.go, volume.go and walk.go together). */
module Mounted {
  import opened Prelude
  import opened Sectors
  import opened Susp
  import opened Expansion
  import opened Directory
  import opened InodeEntries
  import opened FileInfos
  import opened Packing
  import opened ToDirectory
  import opened Aliasing
  import opened FirstRecords
  import opened DirectoryInodes
  import opened Placement
  import opened Layout
  import opened ReadDir
  import opened Children
  import opened ReadBack

  /** A directory that was filled: its maps, its children's identifiers in their order, and what the inodes of `.`, `..`
    and the children tell about themselves. */
  datatype Folder = Folder(names: map<Bytes, Bytes>, children: map<Bytes, Child>, count: nat, ids: seq<Bytes>,
    inodes: seq<InodeInfo>, extensions: seq<Entry>)
  {
    function NameAt(i: nat): Bytes
      requires i < |ids| + 2 && forall k | 0 <= k < |ids| :: ids[k] in children
    {
      if i == 0 then DOT else if i == 1 then DOTDOT else children[ids[i - 2]].name
    }

    function IdentifierAt(i: nat): Bytes
      requires i < |ids| + 2
    {
      if i == 0 then [0] else if i == 1 then [1] else ids[i - 2]
    }
  }

  /** The directory was filled by `AddChild`, with names that can be written. */
  ghost predicate FolderOk(f: Folder) {
    Consistent(f.names, f.children, f.count) && EachOnce(f.ids, f.children) && ExtensionsOk(f.extensions)
    && |f.inodes| == |f.ids| + 2 && (forall i | 0 <= i < |f.inodes| :: InfoOk(f.inodes[i]))
    && forall n | n in f.names :: ValidName(n)
  }

  /** The nodes of the directory are made by `InodeSystemUseEntries` from its inodes, under their names. */
  ghost predicate MadeFrom(nodes: seq<Node>, f: Folder)
    requires EachOnce(f.ids, f.children) && |f.inodes| == |f.ids| + 2
  {
    |nodes| == |f.inodes| && forall i | 0 <= i < |nodes| :: NodeFrom(nodes[i], f, i)
  }

  ghost predicate NodeFrom(n: Node, f: Folder, i: nat)
    requires EachOnce(f.ids, f.children) && i < |f.inodes| == |f.ids| + 2
  {
    n.identifier == f.IdentifierAt(i) && n.entries == SystemUse(f.extensions, n.identifier, f.NameAt(i), f.inodes[i])
    && (n.ref.DirRef? <==> f.inodes[i].kind.IsDirectory?) && (n.ref.FileRef? <==> f.inodes[i].kind.IsFile?)
  }

  lemma NamesProper(f: Folder, i: nat)
    requires FolderOk(f) && i < |f.inodes|
    ensures ValidName(f.NameAt(i)) && f.NameAt(i) != []
    ensures i >= 2 ==> f.NameAt(i) in f.names && f.names[f.NameAt(i)] == f.ids[i - 2] && ProperName(f.NameAt(i))
  {
    if i >= 2 {
      assert ChildOk(f.names, f.children, f.count, f.ids[i - 2]);
      assert NameOk(f.names, f.children, f.NameAt(i));
    }
  }

  /** The address and size of what a node refers to. */
  function StartOf(st: State, ref: Ref): Lba
    requires (ref.DirRef? ==> ref.index < |st.dirStart|) && (ref.FileRef? ==> ref.index < |st.fileStart|)
  {
    match ref case DirRef(i) => st.dirStart[i] case FileRef(i) => st.fileStart[i] case LinkRef => 0
  }

  function SizeOf(tree: Tree, st: State, ref: Ref): nat
    requires (ref.DirRef? ==> ref.index < |st.dirSize|) && (ref.FileRef? ==> ref.index < |tree.files|)
  {
    match ref case DirRef(i) => st.dirSize[i] case FileRef(i) => tree.files[i] case LinkRef => 0
  }

  lemma PartsAre(tree: Tree, st: State, ref: Ref)
    requires StateOk(tree, st)
    requires (ref.DirRef? ==> ref.index < |tree.dirs|) && (ref.FileRef? ==> ref.index < |tree.files|)
    ensures var parts := PartsOf(tree, st, ref);
      parts != [] && parts[0].start == StartOf(st, ref) && PartSum(parts) == SizeOf(tree, st, ref)
        && (|parts| > 1 ==> ref.FileRef?)
  {
    FileSum(StartOf(st, ref), SizeOf(tree, st, ref));
  }

  /** The entry shows the inode of a node under its name, with its address and size. */
  ghost predicate EntryShows(info: FileInfo, tree: Tree, st: State, n: Node, f: Folder, i: nat)
    requires EachOnce(f.ids, f.children) && i < |f.inodes| == |f.ids| + 2
  {
    StateOk(tree, st) && NodeOk(tree, n)
    && ShowsInode(info, f.NameAt(i), f.inodes[i], StartOf(st, n.ref), SizeOf(tree, st, n.ref)) == true
  }

  /** Of an item's first record, the informer of the image makes such an entry. */
  ghost predicate Informed(iso: Bytes, cont: Lba, items: seq<Packing.Item>, i: nat, tree: Tree, st: State, n: Node,
      f: Folder)
    requires ItemsOk(items) && EachOnce(f.ids, f.children) && i < |items| == |f.inodes| == |f.ids| + 2
  {
    Children.Readable(cont, items, i, InformerOf(iso))
    && var rec := Pack(cont, items).1[FirstRecord(cont, items, i)];
    EntryShows(Info(InformerOf(iso), rec, PartSum(items[i].parts)).value, tree, st, n, f, i) == true
  }

  /** Of each node, a listing shows just what its inode is. */
  lemma NodeShown(w: Bytes, tree: Tree, plan: Plan, st: State, iso: Bytes, d: nat, f: Folder, i: nat)
    requires Complete(w, tree, plan, st) && w <= iso && d < |plan.dirs| && DirStart(plan, d + 1) <= 0x20_0000
    requires FolderOk(f) && MadeFrom(tree.dirs[d], f) && i < |f.inodes|
    ensures TreeOk(tree) && NodesOk(tree, tree.dirs[d]) && ItemsOk(Items(tree, st, tree.dirs[d]))
    ensures Informed(iso, ContOf(st, d), Items(tree, st, tree.dirs[d]), i, tree, st, tree.dirs[d][i], f) == true
  {
    var cont, node := ContOf(st, d), tree.dirs[d][i];
    assert NodeFrom(node, f, i);
    NodePlain(node, f, i);
    NodeReadsBack(w, tree, plan, st, iso, d, i);
    var items := Items(tree, st, tree.dirs[d]);
    RecordShown(iso, tree, st, node, f, i, Pack(cont, items).1[FirstRecord(cont, items, i)]);
  }

  lemma NodePlain(n: Node, f: Folder, i: nat)
    requires FolderOk(f) && i < |f.inodes| && NodeFrom(n, f, i)
    ensures Plain(n.entries) == true
  {
    NamesProper(f, i);
    SystemUseValid(f.extensions, n.identifier, f.NameAt(i), f.inodes[i]);
  }

  lemma RecordShown(iso: Bytes, tree: Tree, st: State, n: Node, f: Folder, i: nat, rec: Record)
    requires FolderOk(f) && i < |f.inodes| && NodeFrom(n, f, i) && StateOk(tree, st) && NodeOk(tree, n)
    requires Recorded(iso, ItemOf(tree, st, n), rec) == true
    ensures var info := Info(InformerOf(iso), rec, PartSum(PartsOf(tree, st, n.ref)));
      info.Ok? && EntryShows(info.value, tree, st, n, f, i) == true
  {
    NamesProper(f, i);
    PartsAre(tree, st, n.ref);
    FirstRecordShows(iso, ItemOf(tree, st, n), rec, f.extensions, f.NameAt(i), f.inodes[i], SizeOf(tree, st, n.ref));
    InformerShows(iso, rec, SizeOf(tree, st, n.ref));
  }

  lemma InformerShows(iso: Bytes, rec: Record, size: nat)
    ensures Info(InformerOf(iso), rec, size) == Shown(iso, rec, size)
  {
  }

  // ----- the whole directory -----

  /** The listing has one entry per node, each showing its inode under its name, with its address and whole size. */
  ghost predicate ShowsFolder(listing: Listing<FileInfo>, tree: Tree, st: State, nodes: seq<Node>, f: Folder)
    requires EachOnce(f.ids, f.children) && |f.inodes| == |f.ids| + 2
  {
    listing.clean && |listing.entries| == |f.names| + 2 == |nodes| == |f.inodes|
    && forall i | 0 <= i < |nodes| :: EntryShows(listing.entries[i].info, tree, st, nodes[i], f, i)
  }

  lemma Itemises(tree: Tree, st: State, nodes: seq<Node>, f: Folder)
    requires StateOk(tree, st) && NodesOk(tree, nodes) && FolderOk(f) && MadeFrom(nodes, f)
    ensures Itemised(Items(tree, st, nodes), f.ids)
  {
    var items := Items(tree, st, nodes);
    forall i | 0 <= i < |nodes| ensures items[i].identifier == f.IdentifierAt(i) {
      assert NodeFrom(nodes[i], f, i) && NodeOk(tree, nodes[i]);
    }
  }

  /** A directory that was filled, laid out and burned below block 2^21 lists `.`, `..` and every child exactly once,
    each under its name, with its attributes, its address and the size of all its parts. */
  lemma ChildrenShown(w: Bytes, tree: Tree, plan: Plan, st: State, iso: Bytes, d: nat, f: Folder)
    requires Complete(w, tree, plan, st) && w <= iso && d < |plan.dirs| && DirStart(plan, d + 1) <= 0x20_0000
    requires FolderOk(f) && MadeFrom(tree.dirs[d], f)
    ensures var dir := Section(iso, st.dirStart[d], st.dirSize[d]); var scan := ScanOf(dir, DecodeRecord);
      Forward(scan, |dir|) && ListingHalts(iso, scan, |dir|, 0, InformerOf(iso))
      && ShowsFolder(Rest(scan, |dir|, 0, InformerOf(iso)), tree, st, tree.dirs[d], f)
  {
    var dir, nodes, cont := Section(iso, st.dirStart[d], st.dirSize[d]), tree.dirs[d], ContOf(st, d);
    DirStartUp(plan, d, d + 1);
    SectionHolds(w, tree, plan, st, iso, d);
    ItemsInOrder(tree, st, nodes);
    Itemises(tree, st, nodes, f);
    var items := Items(tree, st, nodes);
    forall i | 0 <= i < |items| ensures Informed(iso, cont, items, i, tree, st, nodes[i], f) == true {
      NodeShown(w, tree, plan, st, iso, d, f, i);
    }
    forall i | 0 <= i < |items| ensures Children.Readable(cont, items, i, InformerOf(iso)) {
      assert Informed(iso, cont, items, i, tree, st, nodes[i], f);
    }
    OneEntryPerChild(f.names, f.children, f.count, f.ids, cont, items, dir, InformerOf(iso));
    var entries := Rest(ScanOf(dir, DecodeRecord), |dir|, 0, InformerOf(iso)).entries;
    forall i | 0 <= i < |nodes| ensures EntryShows(entries[i].info, tree, st, nodes[i], f, i) {
      assert Informed(iso, cont, items, i, tree, st, nodes[i], f);
      assert Children.Listed(cont, items, i, entries, InformerOf(iso));
    }
    CleanHalts(iso, ScanOf(dir, DecodeRecord), |dir|, 0);
  }

  /** What is listed under a name is the child that was added under it, and nothing else is. */
  lemma FoundByName(listing: Listing<FileInfo>, tree: Tree, st: State, nodes: seq<Node>, f: Folder, name: Bytes)
    returns (i: nat)
    requires FolderOk(f) && ShowsFolder(listing, tree, st, nodes, f) && name in f.names
    ensures 2 <= i < |listing.entries| && listing.entries[i].info.name == name && f.ids[i - 2] == f.names[name]
    ensures EntryShows(listing.entries[i].info, tree, st, nodes[i], f, i)
    ensures forall j | 0 <= j < |listing.entries| && listing.entries[j].info.name == name :: j == i
  {
    assert NameOk(f.names, f.children, name);
    var k: nat :| k < |f.ids| && f.ids[k] == f.names[name];
    i := k + 2;
    forall j | 0 <= j < |listing.entries| ensures listing.entries[j].info.name == f.NameAt(j) {
      assert EntryShows(listing.entries[j].info, tree, st, nodes[j], f, j);
    }
    forall j | 0 <= j < |listing.entries| && f.NameAt(j) == name ensures j == i {
      if j >= 2 { NamesProper(f, j); }
    }
  }
}
