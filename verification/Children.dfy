/** A packed directory, listed: one entry per item, with the size of all its parts
  (pkg/iso9660/directoryinode.go and pkg/iso9660/walk.go together). */
module Children {
  import opened Prelude
  import opened Sectors
  import opened Directory
  import opened RecordScan
  import opened DirectoryExtent
  import opened Inode
  import opened Packing
  import opened ToDirectory
  import opened ReadDir
  import opened Listings
  import opened DirectoryInodes
  import Identifier

  function PartSum(parts: seq<Part>): nat {
    if parts == [] then 0 else parts[0].size + PartSum(parts[1..])
  }

  /** The parts of an inode add up to its size. */
  lemma {:induction false} PartSumIs(start: nat, sizes: seq<Uint32>)
    ensures PartSum(PartsFrom(start, sizes)) == Inode.Sum(sizes)
    decreases |sizes|
  {
    if sizes != [] {
      PartSumIs(start + BytesToSectors(sizes[0]), sizes[1..]);
      assert PartsFrom(start, sizes)[1..] == PartsFrom(start + BytesToSectors(sizes[0]), sizes[1..]);
    }
  }

  lemma FileSum(start: nat, size: nat)
    ensures PartSum(PartsFrom(start, PartSizes(size))) == size
  {
    PartSumIs(start, PartSizes(size));
    PartSizesSum(size);
  }

  lemma {:induction false} LengthsAre(recs: seq<Record>, parts: seq<Part>)
    requires |recs| == |parts| && forall i | 0 <= i < |recs| :: recs[i].length == parts[i].size
    ensures Lengths(recs) == PartSum(parts)
  {
    if recs != [] { LengthsAre(recs[1..], parts[1..]); }
  }

  // ----- the groups of a packed directory -----

  /** The records that packing adds for the last of some items. */
  function LastRecords(cont: Lba, items: seq<Packing.Item>): (r: seq<Record>)
    requires ItemsOk(items) && items != []
    ensures Pack(cont, items).1 == Pack(cont, items[..|items| - 1]).1 + r
  {
    var front, it := Pack(cont, items[..|items| - 1]), items[|items| - 1];
    assert ItemOk(it);
    var r := Split(cont, front.0, it.entries, RoomFor(it.identifier), |it.parts|);
    RecordsOf(it, r.1, r.2)
  }

  /** They all bear its identifier, one per part. */
  lemma LastRecordsAre(cont: Lba, items: seq<Packing.Item>)
    requires ItemsOk(items) && items != []
    ensures var recs, it := LastRecords(cont, items), items[|items| - 1];
      |recs| == |it.parts| > 0 && SameIdentifier(recs, it.identifier) && Lengths(recs) == PartSum(it.parts)
      && recs[0].start == it.parts[0].start && AllOk(recs) == true
  {
    var front, it := Pack(cont, items[..|items| - 1]), items[|items| - 1];
    assert ItemOk(it);
    var recs := LastRecords(cont, items);
    LengthsAre(recs, it.parts);
    RecordsOk(cont, front.0, it);
    InOrderOk(recs);
  }

  lemma InOrderOk(recs: seq<Record>)
    requires RecordsInOrder(recs) == true
    ensures AllOk(recs) == true
  {
  }

  ghost function GroupsOf(cont: Lba, items: seq<Packing.Item>): (r: seq<Written>)
    requires ItemsOk(items)
    ensures |r| == |items|
  {
    if items == [] then []
    else
      LastRecordsAre(cont, items);
      var recs := LastRecords(cont, items);
      GroupsOf(cont, items[..|items| - 1]) + [Written(recs, Pieces(recs))]
  }

  lemma {:induction false} AllPiecesSnoc(groups: seq<Written>, g: Written)
    ensures AllPieces(groups + [g]) == AllPieces(groups) + g.pieces
  {
    if groups == [] {
      assert (groups + [g])[1..] == [];
    } else {
      AllPiecesSnoc(groups[1..], g);
      assert (groups + [g])[1..] == groups[1..] + [g];
      Assoc(groups[0].pieces, AllPieces(groups[1..]), g.pieces);
    }
  }

  lemma PiecesJoin(a: seq<Record>, b: seq<Record>)
    requires AllOk(a) && AllOk(b)
    ensures AllOk(a + b) == true && Pieces(a + b) == Pieces(a) + Pieces(b)
  {
  }

  lemma {:induction false} GroupsAreAll(cont: Lba, items: seq<Packing.Item>)
    requires ItemsOk(items)
    ensures AllOk(Pack(cont, items).1) == true && AllPieces(GroupsOf(cont, items)) == Pieces(Pack(cont, items).1)
  {
    if items != [] {
      var front := items[..|items| - 1];
      GroupsAreAll(cont, front);
      LastRecordsAre(cont, items);
      var recs := LastRecords(cont, items);
      AllPiecesSnoc(GroupsOf(cont, front), Written(recs, Pieces(recs)));
      PiecesJoin(Pack(cont, front).1, recs);
    }
  }

  /** Group `i` stands for item `i`. */
  ghost predicate StandsFor(g: Written, it: Packing.Item) {
    g.recs != [] && WrittenOk(g, DecodeRecord) && g.recs[0].identifier == it.identifier
      && Lengths(g.recs) == PartSum(it.parts)
    && it.parts != [] && g.recs[0].start == it.parts[0].start
  }

  lemma {:induction false} GroupsStand(cont: Lba, items: seq<Packing.Item>, i: nat)
    requires ItemsOk(items) && i < |items|
    ensures StandsFor(GroupsOf(cont, items)[i], items[i])
  {
    if i == |items| - 1 {
      LastRecordsAre(cont, items);
      var recs := LastRecords(cont, items);
      PiecesSpell(recs);
    } else {
      GroupsStand(cont, items[..|items| - 1], i);
    }
  }

  /** Neighbouring items have different identifiers. */
  ghost predicate Apart(items: seq<Packing.Item>) {
    forall i {:trigger ApartAt(items, i)} | 0 <= i < |items| - 1 :: ApartAt(items, i)
  }

  ghost predicate ApartAt(items: seq<Packing.Item>, i: nat)
    requires i + 1 < |items|
  {
    items[i].identifier != items[i + 1].identifier
  }

  lemma GroupingIs(cont: Lba, items: seq<Packing.Item>)
    requires ItemsOk(items) && Apart(items)
    ensures Grouping(GroupsOf(cont, items), DecodeRecord) == true
  {
    var groups := GroupsOf(cont, items);
    forall i | 0 <= i < |groups| ensures WrittenOk(groups[i], DecodeRecord) {
      GroupsStand(cont, items, i);
    }
    forall i | 0 <= i < |groups| - 1 ensures Differ(groups, i) {
      GroupsStand(cont, items, i);
      GroupsStand(cont, items, i + 1);
      assert ApartAt(items, i);
    }
  }

  lemma GroupsGrow(cont: Lba, items: seq<Packing.Item>, i: nat)
    requires ItemsOk(items) && i < |items| - 1
    ensures GroupsOf(cont, items)[i] == GroupsOf(cont, items[..|items| - 1])[i]
  {
  }

  /** The first record of a group is the item's first record. */
  lemma {:induction false} GroupFirst(cont: Lba, items: seq<Packing.Item>, i: nat)
    requires ItemsOk(items) && i < |items|
    ensures var at := FirstRecord(cont, items, i);
      at < |Pack(cont, items).1| && GroupsOf(cont, items)[i].recs != []
        && GroupsOf(cont, items)[i].recs[0] == Pack(cont, items).1[at]
  {
    var last := |items| - 1;
    if i == last {
      LastRecordsAre(cont, items);
      AtBack(Pack(cont, items[..last]).1, LastRecords(cont, items), Pack(cont, items).1, 0);
    } else {
      GroupFirst(cont, items[..last], i);
      assert items[..last][..i] == items[..i];
      PackStep(cont, items);
      GroupsGrow(cont, items, i);
    }
  }

  /** An entry shows an item: it is made from the item's first record and the size of all its parts. */
  ghost predicate EntryFor<I>(e: Dirent<I>, rec: Record, it: Packing.Item, inform: Informer<I>) {
    rec.identifier == it.identifier && it.parts != [] && rec.start == it.parts[0].start
      && Info(inform, rec, PartSum(it.parts)) == Ok(e.info)
  }

  ghost predicate Readable<I>(cont: Lba, items: seq<Packing.Item>, i: nat, inform: Informer<I>)
    requires ItemsOk(items) && i < |items|
  {
    var at := FirstRecord(cont, items, i);
    at < |Pack(cont, items).1| && Info(inform, Pack(cont, items).1[at], PartSum(items[i].parts)).Ok?
  }

  /** A written directory lists exactly one entry per item, in order, whose size is that of all parts. */
  lemma OneEntryPerItem<I>(cont: Lba, items: seq<Packing.Item>, dir: Bytes, inform: Informer<I>)
    requires ItemsOk(items) && Apart(items) && |dir| < 0x1_0000_0000
    requires AllOk(Pack(cont, items).1) && Holds(dir, 0, Pieces(Pack(cont, items).1))
    requires forall i | 0 <= i < |items| :: Readable(cont, items, i, inform)
    ensures Forward(ScanOf(dir, DecodeRecord), |dir|)
    ensures var listing := Rest(ScanOf(dir, DecodeRecord), |dir|, 0, inform);
      listing.clean && |listing.entries| == |items|
      && forall i | 0 <= i < |items| :: Listed(cont, items, i, listing.entries, inform)
  {
    var groups, scan := GroupsOf(cont, items), ScanOf(dir, DecodeRecord);
    ScanForward(dir, DecodeRecord);
    GroupingIs(cont, items);
    GroupsAreAll(cont, items);
    forall i | 0 <= i < |groups| ensures Listings.Known(groups[i], inform) {
      GroupsStand(cont, items, i);
      GroupFirst(cont, items, i);
      assert Readable(cont, items, i, inform);
    }
    OneEntryPerGroup(dir, DecodeRecord, scan, |dir|, 0, groups, inform);
    var entries := Rest(scan, |dir|, 0, inform).entries;
    forall i | 0 <= i < |items| ensures Listed(cont, items, i, entries, inform) {
      GroupsStand(cont, items, i);
      GroupFirst(cont, items, i);
      assert ShowsOne(entries[i], groups[i], inform);
    }
  }

  ghost predicate Listed<I>(cont: Lba, items: seq<Packing.Item>, i: nat, entries: seq<Dirent<I>>, inform: Informer<I>)
    requires ItemsOk(items) && i < |items| == |entries|
  {
    var at, recs := FirstRecord(cont, items, i), Pack(cont, items).1;
    at < |recs| && EntryFor(entries[i], recs[at], items[i], inform)
  }

  // ----- the children of a directory -----

  /** The identifiers of all children, each once, in any order. */
  ghost predicate EachOnce(ids: seq<Bytes>, children: map<Bytes, Child>) {
    (forall i | 0 <= i < |ids| :: ids[i] in children) && (forall id | id in children :: id in ids)
    && forall i, j | 0 <= i < j < |ids| :: ids[i] != ids[j]
  }

  lemma {:induction false} OnceCounts(ids: seq<Bytes>, keys: set<Bytes>)
    requires (forall i | 0 <= i < |ids| :: ids[i] in keys) && (forall id | id in keys :: id in ids)
    requires forall i, j | 0 <= i < j < |ids| :: ids[i] != ids[j]
    ensures |ids| == |keys|
    decreases |ids|
  {
    if ids == [] {
      assert keys == {};
    } else {
      var last := |ids| - 1;
      forall id | id in keys - {ids[last]} ensures id in ids[..last] {
        var i :| 0 <= i < |ids| && ids[i] == id;
        assert ids[..last][i] == id;
      }
      OnceCounts(ids[..last], keys - {ids[last]});
    }
  }

  /** `.`, `..` and then the children. */
  ghost predicate Itemised(items: seq<Packing.Item>, ids: seq<Bytes>) {
    |items| == |ids| + 2 && items[0].identifier == [0] && items[1].identifier == [1]
    && forall i | 0 <= i < |ids| :: items[i + 2].identifier == ids[i]
  }

  /** No child can be taken for `.` or `..`. */
  lemma ChildIdentifier(names: map<Bytes, Bytes>, children: map<Bytes, Child>, count: nat, id: Bytes)
    requires Consistent(names, children, count) && id in children
    ensures |id| >= 8
  {
    assert ChildOk(names, children, count, id);
    var k: nat :| k < count && id == Identifier.IdentifierOf(k, children[id].isDir);
    Identifier.Base32Head(Identifier.Uvarint(k));
  }

  /** Neighbouring items of a directory have different identifiers. */
  lemma ChildrenApart(names: map<Bytes, Bytes>, children: map<Bytes, Child>, count: nat, ids: seq<Bytes>,
      items: seq<Packing.Item>)
    requires Consistent(names, children, count) && EachOnce(ids, children) && Itemised(items, ids)
    ensures Apart(items)
  {
    forall i | 0 <= i < |items| - 1 ensures ApartAt(items, i) {
      if i == 1 {
        assert ids[0] in children && items[0 + 2].identifier == ids[0];
        ChildIdentifier(names, children, count, ids[0]);
      } else if i > 1 {
        assert items[i - 2 + 2].identifier == ids[i - 2] && items[i - 1 + 2].identifier == ids[i - 1];
      }
    }
  }

  /** A directory that was filled by `AddChild` lists `.`, `..` and one entry per child. */
  lemma OneEntryPerChild<I>(names: map<Bytes, Bytes>, children: map<Bytes, Child>, count: nat, ids: seq<Bytes>,
      cont: Lba, items: seq<Packing.Item>, dir: Bytes, inform: Informer<I>)
    requires Consistent(names, children, count) && EachOnce(ids, children) && Itemised(items, ids)
    requires ItemsOk(items) && |dir| < 0x1_0000_0000
    requires AllOk(Pack(cont, items).1) && Holds(dir, 0, Pieces(Pack(cont, items).1))
    requires forall i | 0 <= i < |items| :: Readable(cont, items, i, inform)
    ensures Forward(ScanOf(dir, DecodeRecord), |dir|)
    ensures var listing := Rest(ScanOf(dir, DecodeRecord), |dir|, 0, inform);
      listing.clean && |listing.entries| == |names| + 2 == |items|
      && forall i | 0 <= i < |items| :: Listed(cont, items, i, listing.entries, inform)
  {
    ChildrenApart(names, children, count, ids, items);
    OneEntryPerItem(cont, items, dir, inform);
    OnceCounts(ids, children.Keys);
    SameNumber(names, children, count);
  }
}
