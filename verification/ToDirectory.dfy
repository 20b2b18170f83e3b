/** A whole directory packed (`toDirectory`, pkg/iso9660/directoryinode.go): its records and
  area are in order, and no length depends on an address. */
module ToDirectory {
  import opened Prelude
  import opened Sectors
  import opened Susp
  import opened Continuation
  import opened Directory
  import opened Packing

  ghost predicate ItemsOk(items: seq<Item>) { forall i | 0 <= i < |items| :: ItemOk(items[i]) }

  /** The area and the records of the items, in order. */
  function Pack(cont: Lba, items: seq<Item>): (seq<Sector>, seq<Record>)
    requires ItemsOk(items)
  {
    if items == [] then ([], [])
    else
      var front, it := Pack(cont, items[..|items| - 1]), items[|items| - 1];
      assert ItemOk(it);
      var r := Split(cont, front.0, it.entries, RoomFor(it.identifier), |it.parts|);
      (r.0, front.1 + RecordsOf(it, r.1, r.2))
  }

  /** The loop of `toDirectory` over `.`, `..` and the children. */
  method PackAll(cont: Lba, items: seq<Item>) returns (area: ContinuationArea, records: seq<Record>)
    requires ItemsOk(items)
    ensures fresh(area) && area.start == cont
    ensures (area.sectors, records) == Pack(cont, items)
  {
    area := new ContinuationArea(cont);
    records := [];
    for i := 0 to |items|
      invariant fresh(area) && area.start == cont
      invariant (area.sectors, records) == Pack(cont, items[..i])
    {
      Snoc(items, i);
      assert ItemOk(items[i]);
      var more := SplitInode(area, items[i]);
      records := records + more;
    }
    assert items[..|items|] == items;
  }

  // ----- what packing keeps -----

  /** The records can all be written, and the area is in order. */
  lemma {:induction false} PackInOrder(cont: Lba, items: seq<Item>)
    requires ItemsOk(items)
    ensures var p := Pack(cont, items); AreaOk(p.0) && RecordsInOrder(p.1)
  {
    if items != [] {
      var last := |items| - 1;
      PackInOrder(cont, items[..last]);
      var front, it := Pack(cont, items[..last]), items[last];
      assert ItemOk(it);
      SplitKeeps(cont, front.0, it.entries, RoomFor(it.identifier), |it.parts|);
      RecordsOk(cont, front.0, it);
    }
  }

  lemma ExtendsTrans(a: seq<Sector>, b: seq<Sector>, c: seq<Sector>)
    requires Extends(a, b) && Extends(b, c)
    ensures Extends(a, c) == true
  {
    forall i | 0 <= i < |a| ensures a[i].entries <= c[i].entries {
      assert a[i].entries <= b[i].entries && b[i].entries <= c[i].entries;
    }
  }

  lemma PackStep(cont: Lba, items: seq<Item>)
    requires ItemsOk(items) && items != []
    ensures var front := Pack(cont, items[..|items| - 1]);
      Extends(front.0, Pack(cont, items).0) == true && front.1 <= Pack(cont, items).1
  {
    var last := |items| - 1;
    PackInOrder(cont, items[..last]);
    var front, it := Pack(cont, items[..last]), items[last];
    assert ItemOk(it);
    SplitKeeps(cont, front.0, it.entries, RoomFor(it.identifier), |it.parts|);
  }

  lemma {:induction false} PackGrows(cont: Lba, items: seq<Item>, i: nat)
    requires ItemsOk(items) && i <= |items|
    ensures Extends(Pack(cont, items[..i]).0, Pack(cont, items).0) == true
    ensures Pack(cont, items[..i]).1 <= Pack(cont, items).1
  {
    if i == |items| {
      assert items[..i] == items;
    } else {
      var last := |items| - 1;
      PackGrows(cont, items[..last], i);
      assert items[..last][..i] == items[..i];
      PackStep(cont, items);
      ExtendsTrans(Pack(cont, items[..i]).0, Pack(cont, items[..last]).0, Pack(cont, items).0);
    }
  }

  /** The first record of an item stands right after those of the items before. */
  function FirstRecord(cont: Lba, items: seq<Item>, i: nat): nat
    requires ItemsOk(items) && i <= |items|
  {
    |Pack(cont, items[..i]).1|
  }

  /** All fields of the record of one part: flags are 2 for a directory and 128 for a part that is not the last. */
  ghost predicate PartRecorded(rec: Record, it: Item, j: nat)
    requires j < |it.parts|
  {
    rec.identifier == it.identifier && rec.start == it.parts[j].start && rec.length == it.parts[j].size
    && (rec.flags / 2 % 2 == 1 <==> it.isDir) && (rec.flags / 128 == 1 <==> j + 1 < |it.parts|)
    && rec.flags % 2 == 0 && rec.flags / 4 % 32 == 0
    && rec.recorded == it.stamp && rec.volumeId == 1 && rec.extendedAttr == rec.unitSize == rec.gap == 0
  }

  /** The records of an item: one per part. */
  lemma ItemRecords(cont: Lba, items: seq<Item>, i: nat, j: nat)
    requires ItemsOk(items) && i < |items| && j < |items[i].parts|
    ensures var at, recs := FirstRecord(cont, items, i), Pack(cont, items).1;
      at + |items[i].parts| == FirstRecord(cont, items, i + 1) <= |recs|
      && PartRecorded(recs[at + j], items[i], j) == true
  {
    PackGrows(cont, items, i + 1);
    var counts, shared := PackSnoc(cont, items, i);
    AtBack(Pack(cont, items[..i]).1, RecordsOf(items[i], shared, counts), Pack(cont, items).1, j);
    RecordIs(items[i], j, shared, counts[j]);
  }

  lemma RecordIs(it: Item, j: nat, shared: seq<Entry>, count: nat)
    requires j < |it.parts| && count <= |shared|
    ensures PartRecorded(RecordOf(it, j, shared, count), it, j) == true
  {
  }

  lemma PackSnoc(cont: Lba, items: seq<Item>, i: nat) returns (counts: seq<nat>, shared: seq<Entry>)
    requires ItemsOk(items) && i < |items|
    ensures |counts| == |items[i].parts| && AtMost(counts, |shared|)
    ensures Pack(cont, items[..i + 1]).1 == Pack(cont, items[..i]).1 + RecordsOf(items[i], shared, counts)
  {
    Snoc(items, i);
    assert ItemOk(items[i]);
    var r := Split(cont, Pack(cont, items[..i]).0, items[i].entries, RoomFor(items[i].identifier), |items[i].parts|);
    counts, shared := r.2, r.1;
  }

  // ----- lengths do not depend on addresses -----

  ghost predicate SameLens(a: seq<Entry>, b: seq<Entry>) {
    |a| == |b| && forall i | 0 <= i < |a| :: Len(a[i]) == Len(b[i])
  }

  ghost predicate SameRooms(a: seq<Sector>, b: seq<Sector>) {
    |a| == |b| && forall i | 0 <= i < |a| :: a[i].room == b[i].room
  }

  lemma {:induction false} SumSame(a: seq<Entry>, b: seq<Entry>, n: nat)
    requires SameLens(a, b) && n <= |a|
    ensures Continuation.Sum(a, n) == Continuation.Sum(b, n)
  {
    if n > 0 { SumSame(a, b, n - 1); }
  }

  lemma TotalSame(a: seq<Entry>, b: seq<Entry>, n: nat)
    requires SameLens(a, b) && n <= |a|
    ensures Total(a[..n]) == Total(b[..n])
  {
    SumSame(a, b, n);
    SumPrefix(a, n, n);
    SumPrefix(b, n, n);
  }

  lemma {:induction false} KeptBelowSame(room: nat, a: seq<Entry>, b: seq<Entry>, k: nat)
    requires SameLens(a, b) && k <= |a|
    ensures KeptBelow(room, a, k) == KeptBelow(room, b, k)
  {
    TotalSame(a, b, k);
    if k > 0 { KeptBelowSame(room, a, b, k - 1); }
  }

  lemma KeptSame(room: nat, a: seq<Entry>, b: seq<Entry>)
    requires SameLens(a, b)
    ensures Kept(room, a) == Kept(room, b)
  {
    SumSame(a, b, |a|);
    if a != [] { KeptBelowSame(room, a, b, |a| - 1); }
  }

  lemma FreshSame(s: seq<Sector>, t: seq<Sector>)
    requires SameRooms(s, t)
    ensures SameRooms(s + [FRESH], t + [FRESH]) == true
  {
  }

  lemma ReservedSame(s: seq<Sector>, t: seq<Sector>, a: seq<Entry>, b: seq<Entry>, k: nat)
    requires SameLens(a, b) && SameRooms(s, t) && s != [] && 0 < k < |a|
    requires Kept(s[|s| - 1].room, a) == k == Kept(t[|t| - 1].room, b)
    ensures SameRooms(Reserved(s, a), Reserved(t, b)) == true && SameLens(a[k..], b[k..]) == true
  {
    TotalSame(a, b, k);
  }

  lemma ClosedSame(x: seq<Sector>, y: seq<Sector>, i: nat, ce: Entry, other: Entry)
    requires SameRooms(x, y) && i < |x|
    ensures SameRooms(Closed(x, i, ce), Closed(y, i, other)) == true
  {
  }

  /** An append takes the same room wherever the area lies. */
  lemma {:induction false} AppendedSame(c: Lba, d: Lba, s: seq<Sector>, t: seq<Sector>, a: seq<Entry>, b: seq<Entry>)
    requires a != [] && AllValid(a) && AllValid(b) && SameLens(a, b) == true && SameRooms(s, t) == true
    ensures SameRooms(Appended(c, s, a).0, Appended(d, t, b).0) == true
    decreases |a|, 1
  {
    if s == [] || Kept(s[|s| - 1].room, a) == 0 {
      if s != [] { KeptSame(s[|s| - 1].room, a, b); }
      AppendedFresh(c, s, a);
      AppendedFresh(d, t, b);
      FreshSame(s, t);
      PlacedSame(c, d, s + [FRESH], t + [FRESH], a, b);
    } else {
      PlacedSame(c, d, s, t, a, b);
    }
  }

  lemma {:induction false} PlacedSame(c: Lba, d: Lba, s: seq<Sector>, t: seq<Sector>, a: seq<Entry>, b: seq<Entry>)
    requires AllValid(a) && AllValid(b) && SameLens(a, b) == true && SameRooms(s, t) == true && a != [] && s != []
    requires Kept(s[|s| - 1].room, a) > 0
    ensures SameRooms(Appended(c, s, a).0, Appended(d, t, b).0) == true
    decreases |a|, 0
  {
    var k := Kept(s[|s| - 1].room, a);
    KeptSame(s[|s| - 1].room, a, b);
    if k == |a| {
      SumSame(a, b, |a|);
      AppendedFits(c, s, a);
      AppendedFits(d, t, b);
    } else {
      AppendedSpills(c, s, a);
      AppendedSpills(d, t, b);
      ReservedSame(s, t, a, b, k);
      AppendedSame(c, d, Reserved(s, a), Reserved(t, b), a[k..], b[k..]);
      var x, y := Appended(c, Reserved(s, a), a[k..]), Appended(d, Reserved(t, b), b[k..]);
      ClosedSame(x.0, y.0, |s| - 1, x.1, y.1);
    }
  }

  lemma {:induction false} SplitSame(c: Lba, d: Lba, s: seq<Sector>, t: seq<Sector>, a: seq<Entry>, b: seq<Entry>,
      room: nat, n: nat)
    requires AllValid(a) && AllValid(b) && SameLens(a, b) && SameRooms(s, t)
    ensures var x, y := Split(c, s, a, room, n), Split(d, t, b, room, n);
      SameRooms(x.0, y.0) == true && SameLens(x.1, y.1) == true && x.2 == y.2
    decreases n
  {
    KeptSame(room, a, b);
    var k := Kept(room, a);
    if n > 0 {
      if k == |a| {
        SplitSame(c, d, s, t, a, b, room, n - 1);
      } else {
        AppendedSame(c, d, s, t, a[k..], b[k..]);
        var x, y := Appended(c, s, a[k..]), Appended(d, t, b[k..]);
        SplitSame(c, d, x.0, y.0, a[k := x.1], b[k := y.1], room, n - 1);
      }
    }
  }

  /** Items that differ at most in their addresses and sizes. */
  ghost predicate SameShape(a: seq<Item>, b: seq<Item>) {
    |a| == |b| && forall i | 0 <= i < |a| :: SameItem(a[i], b[i])
  }

  ghost predicate SameItem(a: Item, b: Item) {
    a.identifier == b.identifier && a.entries == b.entries && |a.parts| == |b.parts|
  }

  ghost predicate SameRecordLens(a: seq<Record>, b: seq<Record>) {
    |a| == |b| && forall i | 0 <= i < |a| :: RecordLen(a[i]) == RecordLen(b[i])
  }

  lemma RecordsSame(a: Item, b: Item, x: seq<Entry>, y: seq<Entry>, counts: seq<nat>)
    requires SameItem(a, b) && SameLens(x, y) && |counts| == |a.parts| && AtMost(counts, |x|)
    ensures SameRecordLens(RecordsOf(a, x, counts), RecordsOf(b, y, counts)) == true
  {
    forall i | 0 <= i < |counts| ensures RecordLen(RecordsOf(a, x, counts)[i])
      == RecordLen(RecordsOf(b, y, counts)[i]) {
      TotalSame(x, y, counts[i]);
    }
  }

  lemma JoinSame(a: seq<Record>, b: seq<Record>, x: seq<Record>, y: seq<Record>)
    requires SameRecordLens(a, b) && SameRecordLens(x, y)
    ensures SameRecordLens(a + x, b + y) == true
  {
  }

  lemma ItemSame(c: Lba, d: Lba, s: seq<Sector>, t: seq<Sector>, a: Item, b: Item)
    requires ItemOk(a) && ItemOk(b) && SameItem(a, b) && SameRooms(s, t)
    ensures var room := RoomFor(a.identifier);
      var x, y := Split(c, s, a.entries, room, |a.parts|), Split(d, t, b.entries, room, |a.parts|);
      SameRooms(x.0, y.0) == true && SameRecordLens(RecordsOf(a, x.1, x.2), RecordsOf(b, y.1, y.2)) == true
  {
    var room := RoomFor(a.identifier);
    SplitSame(c, d, s, t, a.entries, b.entries, room, |a.parts|);
    RecordsSame(a, b, Split(c, s, a.entries, room, |a.parts|).1, Split(d, t, b.entries, room, |a.parts|).1,
      Split(c, s, a.entries, room, |a.parts|).2);
  }

  /** No record's length and no area's size depends on any address. */
  lemma {:induction false} PackSame(c: Lba, d: Lba, a: seq<Item>, b: seq<Item>)
    requires ItemsOk(a) && ItemsOk(b) && SameShape(a, b)
    ensures var x, y := Pack(c, a), Pack(d, b); SameRooms(x.0, y.0) == true && SameRecordLens(x.1, y.1) == true
  {
    if a != [] {
      var last := |a| - 1;
      PackSame(c, d, a[..last], b[..last]);
      var x, y, i, j := Pack(c, a[..last]), Pack(d, b[..last]), a[last], b[last];
      assert ItemOk(i) && ItemOk(j) && SameItem(i, j);
      ItemSame(c, d, x.0, y.0, i, j);
      var v := Split(c, x.0, i.entries, RoomFor(i.identifier), |i.parts|);
      var w := Split(d, y.0, j.entries, RoomFor(j.identifier), |j.parts|);
      JoinSame(x.1, y.1, RecordsOf(i, v.1, v.2), RecordsOf(j, w.1, w.2));
    }
  }
}
