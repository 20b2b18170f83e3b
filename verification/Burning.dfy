/** A whole disc: a volume's metadata is written and burned with its files (pkg/vdisc/builder.go), and reads of the
  loaded disc (pkg/vdisc/loader.go, pkg/storage/concat.go) yield the metadata and the files. */
module Burning {
  import opened Prelude
  import opened Sectors
  import opened Inversion
  import opened Placement
  import opened Descriptor
  import opened BurnLoad
  import Layout
  import Concat

  /** The files of a volume in visiting order, as large as the tree says. */
  ghost predicate FilesOf(tree: Layout.Tree, files: seq<File>) {
    |files| == |tree.files| && forall f | 0 <= f < |files| :: |files[f].data| == tree.files[f]
  }

  /** The metadata and then the files. */
  function Objects(url: string, w: Bytes, files: seq<File>): seq<File> { [File(url, w)] + files }

  /** The extent of file `f` is indexed by the address of its inode. */
  ghost predicate FiledAt(starts: seq<Lba>, extents: seq<BurnLoad.Extent>, f: nat)
    requires f < |starts|
  {
    var index := Indexed(extents, |extents|);
    starts[f] in index && index[starts[f]] == f + 1
  }

  ghost predicate Loads(uris: seq<InvertedTrieNode>, extents: seq<BurnLoad.Extent>, store: Store, image: Bytes) {
    PrefixesOk(uris, extents) && Loaded(uris, extents, |extents|, store) == image
  }

  lemma ObjectsAgree(tree: Layout.Tree, plan: Plan, url: string, w: Bytes, files: seq<File>, f: nat)
    requires plan.files == tree.files && FilesOf(tree, files) && |w| == 2048 * FileStart(plan, 0) && f <= |files|
    ensures var all := Objects(url, w, files); MetaOk(all) && BurnLoad.StartOf(all, f + 1) == FileStart(plan, f)
  {
    DirStartUp(plan, 0, |plan.dirs|);
    LayoutAgrees(plan, Objects(url, w, files), f);
  }

  /** `Build`, from the volume to the extents. Every file's address in the metadata is the key of its extent, and
    whatever storage holds these objects, loading yields the metadata and each file, filled up to whole sectors. */
  method Burn(v: Layout.Volume, url: string, files: seq<File>)
    returns (w: Bytes, uris: seq<InvertedTrieNode>, extents: seq<BurnLoad.Extent>)
    requires v.Valid() == true && FilesOf(v.tree, files)
    modifies v
    ensures v.Valid() == true && Layout.DirsPlaced(v.plan, v.St(), |v.plan.dirs|) == true
    ensures Layout.WrittenUpTo(w, v.tree, v.plan, v.St(), |v.plan.dirs|) == true && FrontLies(w, v.pvd) == true
    ensures Layout.Addressed(old(v.pvd), v.pvd, v.tree, v.plan, v.St()) == true
    ensures Burned(uris, extents, Objects(url, w, files)) && w <= Image(Objects(url, w, files))
    ensures |v.fileStart| == |files| && forall f | 0 <= f < |files| :: FiledAt(v.fileStart, extents, f)
    ensures forall f | 0 <= f < |files| ::
      LiesAt(Image(Objects(url, w, files)), SectorsToBytes(v.fileStart[f]), files[f].data) == true
    ensures Distinct(Objects(url, w, files)) ==> forall store | Stored(Objects(url, w, files), store) ::
      Loads(uris, extents, store, Image(Objects(url, w, files))) == true
  {
    w := v.WriteMetadataTo();
    var all := Objects(url, w, files);
    var starts := [0] + v.fileStart;
    StartsAgree(v.tree, v.plan, v.St(), url, w, files);
    uris, extents := Build(all, starts);
    AddressesAgree(v.tree, v.plan, v.St(), url, w, files, uris, extents);
    if Distinct(all) {
      forall store | Stored(all, store) ensures Loads(uris, extents, store, Image(all)) == true {
        LoadAgrees(uris, extents, all, store);
      }
    }
  }

  lemma StartsAgree(tree: Layout.Tree, plan: Plan, st: Layout.State, url: string, w: Bytes, files: seq<File>)
    requires Placement.Fits(plan) && plan.files == tree.files && FilesOf(tree, files)
    requires |w| == 2048 * FileStart(plan, 0) && Layout.FilesPlaced(plan, st, |plan.files|)
    ensures var all, starts := Objects(url, w, files), [0] + st.fileStart;
      BurnLoad.Fits(all) && |starts| == |all| && forall i | 0 <= i < |all| :: StartsAt(all, starts, i)
  {
    var all, starts := Objects(url, w, files), [0] + st.fileStart;
    ObjectsAgree(tree, plan, url, w, files, |files|);
    forall i | 0 <= i < |all| ensures StartsAt(all, starts, i) {
      if i > 0 {
        ObjectsAgree(tree, plan, url, w, files, i - 1);
        assert Layout.FilePlaced(plan, st, i - 1);
      }
    }
  }

  lemma AddressesAgree(tree: Layout.Tree, plan: Plan, st: Layout.State, url: string, w: Bytes, files: seq<File>,
      uris: seq<InvertedTrieNode>, extents: seq<BurnLoad.Extent>)
    requires Placement.Fits(plan) && plan.files == tree.files && FilesOf(tree, files)
    requires |w| == 2048 * FileStart(plan, 0) && Layout.FilesPlaced(plan, st, |plan.files|)
    requires Burned(uris, extents, Objects(url, w, files))
    ensures w <= Image(Objects(url, w, files))
    ensures forall f | 0 <= f < |files| :: FiledAt(st.fileStart, extents, f)
    ensures forall f | 0 <= f < |files| ::
      LiesAt(Image(Objects(url, w, files)), SectorsToBytes(st.fileStart[f]), files[f].data) == true
  {
    StartsAgree(tree, plan, st, url, w, files);
    MetadataFirst(Objects(url, w, files));
    forall f | 0 <= f < |files| ensures FileAgrees(url, w, files, st.fileStart, extents, f) {
      ObjectsAgree(tree, plan, url, w, files, f);
      assert Layout.FilePlaced(plan, st, f);
      FileFiled(Objects(url, w, files), uris, extents, f + 1, st.fileStart[f]);
    }
    forall f | 0 <= f < |files| ensures FiledAt(st.fileStart, extents, f) {
      assert FileAgrees(url, w, files, st.fileStart, extents, f);
    }
    forall f | 0 <= f < |files|
      ensures LiesAt(Image(Objects(url, w, files)), SectorsToBytes(st.fileStart[f]), files[f].data) == true
    {
      assert FileAgrees(url, w, files, st.fileStart, extents, f);
    }
  }

  ghost predicate FileAgrees(url: string, w: Bytes, files: seq<File>, starts: seq<Lba>, extents: seq<BurnLoad.Extent>,
      f: nat)
    requires f < |files| == |starts|
  {
    FiledAt(starts, extents, f)
      && LiesAt(Image(Objects(url, w, files)), SectorsToBytes(starts[f]), files[f].data) == true
  }

  lemma FileFiled(all: seq<File>, uris: seq<InvertedTrieNode>, extents: seq<BurnLoad.Extent>, i: nat, start: Lba)
    requires Burned(uris, extents, all) && BurnLoad.Fits(all) && i < |all| && start == BurnLoad.StartOf(all, i)
    ensures var index := Indexed(extents, |extents|); start in index && index[start] == i
    ensures LiesAt(Image(all), SectorsToBytes(start), all[i].data) == true
  {
    IndexedAt(uris, extents, all, |all|, i);
    ObjectLies(all, i);
  }

  lemma MetadataFirst(all: seq<File>)
    requires all != []
    ensures all[0].data <= Image(all)
  {
    ObjectLies(all, 0);
    assert BurnLoad.StartOf(all, 0) == 0;
  }

  /** Every object lies in the image at its address. */
  lemma ObjectLies(all: seq<File>, i: nat)
    requires i < |all|
    ensures LiesAt(Image(all), 2048 * BurnLoad.StartOf(all, i), all[i].data) == true
  {
    ImageLen(all, i);
    ImageSnoc(all, i);
    InBack(Image(all[..i]), Filled(all[i].data));
    PartLies(Image(all[..i + 1]), 2048 * BurnLoad.StartOf(all, i), Filled(all[i].data), 0, |all[i].data|);
    assert Filled(all[i].data)[0..|all[i].data|] == all[i].data;
    ImageGrows(all, i + 1);
    LiesOn(Image(all[..i + 1]), Image(all), 2048 * BurnLoad.StartOf(all, i), all[i].data);
  }

  lemma {:induction false} ImageGrows(all: seq<File>, n: nat)
    requires n <= |all|
    ensures Image(all[..n]) <= Image(all)
    decreases |all| - n
  {
    if n == |all| {
      assert all[..n] == all;
    } else {
      ImageGrows(all, n + 1);
      ImageSnoc(all, n);
    }
  }

  // ----- reading the disc -----

  /** Loads a burned disc and reads from it: every read yields the bytes of the image, cut short only at its end. */
  method ReadDisc(uris: seq<InvertedTrieNode>, extents: seq<BurnLoad.Extent>, store: Store, p: array<Byte>, off: nat,
      ghost all: seq<File>) returns (n: nat, err: Concat.Error)
    requires Burned(uris, extents, all) && Distinct(all) && Stored(all, store)
    modifies p
    ensures n == |Copied(Image(all), off, p.Length)| && p[..n] == Copied(Image(all), off, p.Length)
    ensures err == Concat.NoError || (err == Concat.Eof && n < p.Length)
  {
    LoadAgrees(uris, extents, all, store);
    BurnedFull(uris, extents, all, store);
    var indices, objects := Load(uris, extents, store);
    var image := Concat.Concatenate(objects);
    n, err := Concat.ReadImage(image, p, p.Length, off, objects);
  }
}
