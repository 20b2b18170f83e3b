/** Looking a path up on a mounted disc (`Walker.lstat`, pkg/iso9660/walk.go): it leads to the inode that was added
  there, or to none. */
module Walker {
  import opened Prelude
  import opened Sectors
  import opened Directory
  import opened Descriptor
  import opened FileInfos
  import opened Placement
  import opened Layout
  import opened ReadDir
  import opened ReadBack
  import opened Mounted
  import opened Lookup

  /** A volume as it was laid out, with what its directories were filled with. */
  datatype Disc = Disc(w: Bytes, tree: Tree, plan: Plan, st: State, pvd: Pvd, folders: seq<Folder>)

  ghost predicate FolderAt(disc: Disc, d: nat) {
    d < |disc.folders| == |disc.tree.dirs| && FolderOk(disc.folders[d]) && MadeFrom(disc.tree.dirs[d], disc.folders[d])
  }

  ghost predicate DiscOk(disc: Disc) {
    Complete(disc.w, disc.tree, disc.plan, disc.st) == true && DirStart(disc.plan, |disc.plan.dirs|) <= 0x20_0000
    && FrontLies(disc.w, disc.pvd) == true
      && 0 < |disc.st.dirStart| == |disc.st.dirSize| == |disc.tree.dirs| == |disc.plan.dirs|
    && disc.pvd.rootStart == disc.st.dirStart[0] && disc.pvd.rootLength == disc.st.dirSize[0]
    && forall d | 0 <= d < |disc.tree.dirs| :: FolderAt(disc, d)
  }

  /** What `WriteMetadataTo` leaves behind is such a disc. */
  lemma WrittenDisc(disc: Disc, labels: Pvd)
    requires Planned(disc.tree, disc.plan) == true && Fits(disc.plan) && StateOk(disc.tree, disc.st)
    requires DirsPlaced(disc.plan, disc.st, |disc.plan.dirs|) && DirStart(disc.plan, |disc.plan.dirs|) <= 0x20_0000
    requires WrittenUpTo(disc.w, disc.tree, disc.plan, disc.st, |disc.plan.dirs|) && FrontLies(disc.w, disc.pvd) == true
    requires Addressed(labels, disc.pvd, disc.tree, disc.plan, disc.st) == true
    requires |disc.folders| == |disc.tree.dirs| && forall d | 0 <= d < |disc.tree.dirs| :: FolderAt(disc, d)
    ensures DiscOk(disc)
  {
    PlannedTree(disc.tree, disc.plan);
    RootAt(labels, disc.pvd, disc.tree, disc.plan, disc.st);
  }

  // ----- where a path leads -----

  /** Node `node` of directory `dir`; or a part does not exist; or one on the way is no directory. */
  datatype Place = At(dir: nat, node: nat) | Missing | Blocked

  ghost function IndexOf(f: Folder, name: Bytes): (r: Option<nat>)
    requires FolderOk(f)
    ensures r.Some? ==> r.value < |f.inodes| && f.NameAt(r.value) == name
    ensures r.None? ==> forall i | 0 <= i < |f.inodes| :: f.NameAt(i) != name
  {
    if i: nat :| i < |f.inodes| && f.NameAt(i) == name then Some(i) else None
  }

  ghost function Resolve(disc: Disc, d: nat, path: seq<Bytes>): (r: Place)
    requires (forall d | 0 <= d < |disc.tree.dirs| :: FolderAt(disc, d)) && d < |disc.tree.dirs| && path != []
    ensures r.At? ==> r.dir < |disc.tree.dirs| && r.node < |disc.tree.dirs[r.dir]|
    decreases |path|
  {
    assert FolderAt(disc, d);
    var i := IndexOf(disc.folders[d], path[0]);
    if i.None? then Missing
    else if |path| == 1 then At(d, i.value)
    else
      var ref := disc.tree.dirs[d][i.value].ref;
      if ref.DirRef? && ref.index < |disc.tree.dirs| then Resolve(disc, ref.index, path[1..]) else Blocked
  }

  lemma NamesApart(f: Folder, i: nat, j: nat)
    requires FolderOk(f) && i < |f.inodes| && j < |f.inodes| && f.NameAt(i) == f.NameAt(j)
    ensures i == j
  {
    if i >= 2 { NamesProper(f, i); }
    if j >= 2 { NamesProper(f, j); }
  }

  /** A name leads to its own entry. */
  lemma {:induction false} FirstAt(entries: seq<Dirent<FileInfo>>, name: Bytes, i: nat)
    requires i < |entries| && entries[i].info.name == name && forall j | 0 <= j < i :: entries[j].info.name != name
    ensures FirstNamed(entries, name) == Some(entries[i].info)
  {
    if i > 0 { FirstAt(entries[1..], name, i - 1); }
  }

  lemma FolderFinds(listing: Listing<FileInfo>, tree: Tree, st: State, nodes: seq<Node>, f: Folder, name: Bytes)
    requires FolderOk(f) && ShowsFolder(listing, tree, st, nodes, f)
    ensures var i := IndexOf(f, name);
      FirstNamed(listing.entries, name) == if i.Some? then Some(listing.entries[i.value].info) else None
  {
    forall j | 0 <= j < |listing.entries| ensures listing.entries[j].info.name == f.NameAt(j) {
      assert EntryShows(listing.entries[j].info, tree, st, nodes[j], f, j);
    }
    var i := IndexOf(f, name);
    if i.Some? {
      forall j | 0 <= j < i.value ensures listing.entries[j].info.name != name {
        if f.NameAt(j) == name { NamesApart(f, j, i.value); }
      }
      FirstAt(listing.entries, name, i.value);
    } else {
      NamedNext(listing.entries, listing.entries, name);
    }
  }

  // ----- the walk -----

  /** The entry shows what was added at this place. */
  ghost predicate ShownAt(disc: Disc, d: nat, i: nat, info: FileInfo) {
    FolderAt(disc, d) && i < |disc.tree.dirs[d]|
    && EntryShows(info, disc.tree, disc.st, disc.tree.dirs[d][i], disc.folders[d], i) == true
  }

  lemma DirectoryShows(iso: Bytes, disc: Disc, d: nat)
    requires DiscOk(disc) == true && disc.w <= iso && d < |disc.tree.dirs|
    ensures FolderAt(disc, d) && |disc.st.dirStart| == |disc.st.dirSize| == |disc.tree.dirs|
    ensures var dir := Section(iso, disc.st.dirStart[d], disc.st.dirSize[d]); var scan := ScanOf(dir, DecodeRecord);
      Forward(scan, |dir|) && ListingHalts(iso, scan, |dir|, 0, InformerOf(iso)) == true
      && ShowsFolder(Rest(scan, |dir|, 0, InformerOf(iso)), disc.tree, disc.st, disc.tree.dirs[d], disc.folders[d])
        == true
  {
    assert FolderAt(disc, d);
    DirStartUp(disc.plan, d + 1, |disc.plan.dirs|);
    ChildrenShown(disc.w, disc.tree, disc.plan, disc.st, iso, d, disc.folders[d]);
  }

  /** One part of the path, looked for in the directory it should be in. */
  method Step(iso: Bytes, ghost disc: Disc, ghost d: nat, start: Lba, size: Uint32, part: Bytes)
    returns (r: Result<Option<FileInfo>>)
    requires DiscOk(disc) == true && disc.w <= iso && d < |disc.tree.dirs|
    requires |disc.st.dirStart| == |disc.st.dirSize| == |disc.tree.dirs|
    requires start == disc.st.dirStart[d] && size == disc.st.dirSize[d]
    ensures FolderAt(disc, d) && r.Ok? && var i := IndexOf(disc.folders[d], part);
      r.value.Some? == i.Some? && (i.Some? ==> ShownAt(disc, d, i.value, r.value.value) == true)
  {
    DirectoryShows(iso, disc, d);
    r := FindIn(iso, start, size, part);
    StepFinds(iso, disc, d, part);
  }

  lemma StepFinds(iso: Bytes, disc: Disc, d: nat, part: Bytes)
    requires FolderAt(disc, d) && |disc.st.dirStart| == |disc.st.dirSize| == |disc.tree.dirs|
    requires var dir := Section(iso, disc.st.dirStart[d], disc.st.dirSize[d]);
      Forward(ScanOf(dir, DecodeRecord), |dir|)
      && ShowsFolder(Rest(ScanOf(dir, DecodeRecord), |dir|, 0, InformerOf(iso)), disc.tree, disc.st, disc.tree.dirs[d],
        disc.folders[d]) == true
    ensures var dir := Section(iso, disc.st.dirStart[d], disc.st.dirSize[d]);
      var i, all := IndexOf(disc.folders[d], part), Rest(ScanOf(dir, DecodeRecord), |dir|, 0, InformerOf(iso));
      var r := FirstNamed(all.entries, part);
      all.clean && r.Some? == i.Some? && (i.Some? ==> ShownAt(disc, d, i.value, r.value) == true)
  {
    var dir := Section(iso, disc.st.dirStart[d], disc.st.dirSize[d]);
    var all := Rest(ScanOf(dir, DecodeRecord), |dir|, 0, InformerOf(iso));
    FolderFinds(all, disc.tree, disc.st, disc.tree.dirs[d], disc.folders[d], part);
    var i := IndexOf(disc.folders[d], part);
    if i.Some? {
      var k := i.value;
      assert EntryShows(all.entries[k].info, disc.tree, disc.st, disc.tree.dirs[d][k], disc.folders[d], k);
    }
  }

  /** What an entry says of the next directory to go to. */
  lemma GoesOn(disc: Disc, d: nat, i: nat, info: FileInfo)
    requires ShownAt(disc, d, i, info) && |disc.st.dirStart| == |disc.st.dirSize| == |disc.tree.dirs|
    ensures var ref := disc.tree.dirs[d][i].ref;
      info.isDir == ref.DirRef?
      && (ref.DirRef? ==>
        ref.index < |disc.tree.dirs| && info.extent == disc.st.dirStart[ref.index]
        && info.size == disc.st.dirSize[ref.index])
  {
    assert NodeFrom(disc.tree.dirs[d][i], disc.folders[d], i);
  }

  datatype Stat = Found(info: FileInfo) | NotFound | NotDirectory | Corrupt

  /** What is found is what was added there. */
  ghost predicate Agrees(disc: Disc, r: Stat, place: Place) {
    match place
    case At(d, i) => r.Found? && ShownAt(disc, d, i, r.info) == true
    case Missing => r == NotFound
    case Blocked => r == NotDirectory
  }

  /** `lstat` with an empty cache: a path leads to the entry of the inode that was added there, and an error comes
    exactly if there is none, or if the path goes through something that is no directory. */
  method Lstat(iso: Bytes, path: seq<Bytes>, ghost disc: Disc) returns (r: Stat)
    requires DiscOk(disc) && disc.w <= iso
    ensures Agrees(disc, r, Resolve(disc, 0, [DOT] + path))
  {
    FrontRead(disc.w, iso, disc.pvd);
    var pvd := DecodePvd(Copied(iso, 16 * 2048, 2048));
    if pvd.Err? {
      return Corrupt;
    }
    var start: Lba, size: nat, parts := pvd.value.rootStart, pvd.value.rootLength, [DOT] + path;
    ghost var d: nat := 0;
    while true
      invariant parts != [] && d < |disc.tree.dirs| && start == disc.st.dirStart[d] && size == disc.st.dirSize[d]
      invariant Resolve(disc, d, parts) == Resolve(disc, 0, [DOT] + path)
      decreases |parts|
    {
      var part := parts[0];
      parts := parts[1..];
      var found := Step(iso, disc, d, start, size, part);
      if found.Err? {
        return Corrupt;
      }
      if found.value.None? {
        return NotFound;
      }
      var info := found.value.value;
      if |parts| == 0 {
        return Found(info);
      }
      ghost var i := IndexOf(disc.folders[d], part).value;
      GoesOn(disc, d, i, info);
      if !info.isDir {
        return NotDirectory;
      }
      start, size := info.extent, info.size;
      d := disc.tree.dirs[d][i].ref.index;
    }
  }

  /** Opening a file that was found reads its bytes. */
  lemma OpenReads(iso: Bytes, disc: Disc, d: nat, i: nat, info: FileInfo, data: Bytes)
    requires ShownAt(disc, d, i, info) && disc.tree.dirs[d][i].ref.FileRef?
    requires var f := disc.tree.dirs[d][i].ref.index;
      f < |disc.st.fileStart| == |disc.tree.files| && |data| == disc.tree.files[f]
      && LiesAt(iso, SectorsToBytes(disc.st.fileStart[f]), data)
    ensures Copied(iso, SectorsToBytes(info.extent), info.size) == data
  {
    assert NodeFrom(disc.tree.dirs[d][i], disc.folders[d], i);
  }
}
