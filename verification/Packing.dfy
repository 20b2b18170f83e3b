/** A directory's records and continuation area (`toDirectory`, pkg/iso9660/directoryinode.go). */
module Packing {
  import opened Prelude
  import opened Sectors
  import opened Susp
  import opened Continuation
  import opened Directory
  import opened Inode

  /** An entry of a directory: what its records are made from. */
  datatype Item = Item(identifier: Bytes, entries: seq<Entry>, parts: seq<Part>, isDir: bool, stamp: Bytes)

  ghost predicate ItemOk(it: Item) {
    |it.identifier| <= MAX_IDENTIFIER && AllValid(it.entries) && |it.stamp| == 7 && it.parts != []
  }

  function RoomFor(identifier: Bytes): nat
    requires |identifier| <= MAX_IDENTIFIER
  {
    MAX_RECORD - BaseLen(identifier)
  }

  ghost predicate AtMost(counts: seq<nat>, n: nat) { forall i | 0 <= i < |counts| :: counts[i] <= n }

  /** The state after the records of `n` parts: the area, the entry list that all of them share,
    and how much of that list each record shows. A CE is put into the shared list, in place of
    the first entry that went to the area: the next part starts from the list so changed. */
  function Split(cont: Lba, sectors: seq<Sector>, shared: seq<Entry>, room: nat, n: nat): (r: (seq<Sector>, seq<Entry>,
      seq<nat>))
    requires AllValid(shared)
    ensures AllValid(r.1) && |r.1| == |shared| && |r.2| == n && AtMost(r.2, |shared|)
    decreases n
  {
    var k := Kept(room, shared);
    if n == 0 then (sectors, shared, [])
    else if k == |shared| then
      var r := Split(cont, sectors, shared, room, n - 1);
      (r.0, r.1, [k] + r.2)
    else
      var a := Appended(cont, sectors, shared[k..]);
      var r := Split(cont, a.0, shared[k := a.1], room, n - 1);
      (r.0, r.1, [k + 1] + r.2)
  }

  // ----- one inode -----

  const DIR_FLAG := 2
  const NON_TERMINAL := 128

  function RecordOf(it: Item, i: nat, shared: seq<Entry>, count: nat): Record
    requires i < |it.parts| && count <= |shared|
  {
    var flags := (if it.isDir then DIR_FLAG else 0) + (if i < |it.parts| - 1 then NON_TERMINAL else 0);
    Record(it.identifier, it.parts[i].start, it.parts[i].size, flags, it.stamp, shared[..count], 0, 0, 0, 1)
  }

  function RecordsOf(it: Item, shared: seq<Entry>, counts: seq<nat>): (r: seq<Record>)
    requires |counts| == |it.parts| && AtMost(counts, |shared|)
    ensures |r| == |counts| && forall i | 0 <= i < |r| :: r[i] == RecordOf(it, i, shared, counts[i])
  {
    seq(|counts|, i requires 0 <= i < |counts| => RecordOf(it, i, shared, counts[i]))
  }

  /** One part: what does not fit goes to the area, and the CE into the list. */
  method PackPart(area: ContinuationArea, es: seq<Entry>, room: nat) returns (shared: seq<Entry>, count: nat)
    requires AllValid(es) == true
    modifies area
    ensures AllValid(shared) == true
    ensures var k := Kept(room, es);
      if k == |es| then shared == es && count == k && area.sectors == old(area.sectors)
      else
        var a := Appended(area.start, old(area.sectors), es[k..]);
        shared == es[k := a.1] && count == k + 1 && area.sectors == a.0
  {
    var kept, overflow, baseLen, extraLen := Pop(room, es);
    shared, count := es, |kept|;
    if |overflow| > 0 {
      var ce := area.Append(overflow);
      ReplacedValid(shared, |kept|, ce.value);
      shared := shared[|kept| := ce.value];
      count := |kept| + 1;
    }
  }

  /** One turn of the loop over the parts. */
  method SplitNext(area: ContinuationArea, es: seq<Entry>, room: nat, ghost whole: Splitting, ghost n: nat,
      ghost counts: seq<nat>)
    returns (shared: seq<Entry>, count: nat)
    requires n > 0 && AllValid(es) == true && Leading(whole, area.start, area.sectors, es, room, n, counts) == true
    modifies area
    ensures AllValid(shared) == true
    ensures Leading(whole, area.start, area.sectors, shared, room, n - 1, counts + [count]) == true
  {
    LeadingStep(whole, area.start, area.sectors, es, room, n, counts);
    shared, count := PackPart(area, es, room);
  }

  /** `splitInode`: the records of all parts, after the last of them is packed. */
  method SplitInode(area: ContinuationArea, it: Item) returns (records: seq<Record>)
    requires ItemOk(it)
    modifies area
    ensures var r := Split(area.start, old(area.sectors), it.entries, RoomFor(it.identifier), |it.parts|);
      area.sectors == r.0 && records == RecordsOf(it, r.1, r.2)
  {
    var shared, counts: seq<nat> := it.entries, [];
    var room := RoomFor(it.identifier);
    ghost var whole := Split(area.start, area.sectors, shared, room, |it.parts|);
    assert [] + whole.2 == whole.2;
    for i := 0 to |it.parts|
      invariant AllValid(shared) && |counts| == i
      invariant Leading(whole, area.start, area.sectors, shared, room, |it.parts| - i, counts) == true
    {
      var count;
      shared, count := SplitNext(area, shared, room, whole, |it.parts| - i, counts);
      counts := counts + [count];
    }
    LeadingStep(whole, area.start, area.sectors, shared, room, 0, counts);
    records := RecordsOf(it, shared, counts);
  }

  type Splitting = (seq<Sector>, seq<Entry>, seq<nat>)

  /** `whole` is `counts` and then the records of `n` more parts. (Only unfolded where `Unfold(true)` is asserted.) */
  ghost predicate Leading(whole: Splitting, cont: Lba, sectors: seq<Sector>, shared: seq<Entry>, room: nat, n: nat,
      counts: seq<nat>)
    requires AllValid(shared)
  {
    forall u {:trigger Unfold(u)} :: Unfold(u) ==>
      var rest := Split(cont, sectors, shared, room, n);
      whole.0 == rest.0 && whole.1 == rest.1 && whole.2 == counts + rest.2
  }

  lemma LeadingStep(whole: Splitting, cont: Lba, sectors: seq<Sector>, shared: seq<Entry>, room: nat, n: nat,
      counts: seq<nat>)
    requires AllValid(shared) && Leading(whole, cont, sectors, shared, room, n, counts) == true
    ensures var k := Kept(room, shared);
      if n == 0 then whole == (sectors, shared, counts)
      else if k == |shared| then Leading(whole, cont, sectors, shared, room, n - 1, counts + [k]) == true
      else
        var a := Appended(cont, sectors, shared[k..]);
        AllValid(shared[k := a.1]) && Leading(whole, cont, a.0, shared[k := a.1], room, n - 1, counts + [k + 1]) == true
  {
    assert Unfold(true);
    var k := Kept(room, shared);
    if n == 0 {
      assert counts + [] == counts;
    } else if k == |shared| {
      Assoc(counts, [k], Split(cont, sectors, shared, room, n - 1).2);
    } else {
      var a := Appended(cont, sectors, shared[k..]);
      Assoc(counts, [k + 1], Split(cont, a.0, shared[k := a.1], room, n - 1).2);
    }
  }

  lemma ReplacedValid(es: seq<Entry>, k: nat, ce: Entry)
    requires AllValid(es) && k < |es| && ce.CE?
    ensures AllValid(es[k := ce])
  {
  }

  // ----- what splitting keeps -----

  /** Once a list fits it is left alone. */
  lemma {:induction false} SplitFitting(cont: Lba, sectors: seq<Sector>, shared: seq<Entry>, room: nat, n: nat)
    requires AllValid(shared) && Kept(room, shared) == |shared|
    ensures var r := Split(cont, sectors, shared, room, n);
      r.0 == sectors && r.1 == shared && forall i | 0 <= i < |r.2| :: r.2[i] == |shared|
  {
    if n > 0 { SplitFitting(cont, sectors, shared, room, n - 1); }
  }

  lemma KeptAtLeast(room: nat, es: seq<Entry>, k: nat, p: nat)
    requires p <= k <= |es| && Total(es[..p]) + CE_LENGTH <= room
    ensures p <= KeptBelow(room, es, k)
    decreases k
  {
    if p < k { KeptAtLeast(room, es, k - 1, p); }
  }

  /** A CE put into the shared list stays where it is, or is replaced by a later one. */
  lemma {:induction false} SplitStable(cont: Lba, sectors: seq<Sector>, shared: seq<Entry>, room: nat, n: nat, p: nat)
    requires AllValid(shared) && p < |shared| && shared[p].CE? && Total(shared[..p]) + CE_LENGTH <= room
    ensures var r := Split(cont, sectors, shared, room, n); r.1[..p] == shared[..p] && r.1[p].CE?
    decreases n
  {
    var k := Kept(room, shared);
    if n > 0 && k < |shared| {
      KeptAtLeast(room, shared, |shared| - 1, p);
      var a := Appended(cont, sectors, shared[k..]);
      var changed := shared[k := a.1];
      assert changed[..p] == shared[..p];
      SplitStable(cont, a.0, changed, room, n - 1, p);
    } else if n > 0 {
      SplitFitting(cont, sectors, shared, room, n);
    }
  }

  ghost predicate AllFit(shared: seq<Entry>, counts: seq<nat>, room: nat) {
    AtMost(counts, |shared|) && forall i | 0 <= i < |counts| :: Total(shared[..counts[i]]) <= room
  }

  /** One more record, with a CE at its end. */
  lemma FitMore(shared: seq<Entry>, k: nat, counts: seq<nat>, room: nat)
    requires AllFit(shared, counts, room) == true && k < |shared| && shared[k].CE?
    requires Total(shared[..k]) + CE_LENGTH <= room
    ensures AllFit(shared, [k + 1] + counts, room) == true
  {
    CeShown(shared, k, room);
    var all := [k + 1] + counts;
    forall i | 0 <= i < |all| ensures Total(shared[..all[i]]) <= room {
      if i > 0 { assert all[i] == counts[i - 1]; }
    }
  }

  /** What each record shows of the shared list fits in the record. */
  lemma {:induction false} SplitFits(cont: Lba, sectors: seq<Sector>, shared: seq<Entry>, room: nat, n: nat)
    requires AllValid(shared) && room >= CE_LENGTH
    ensures var r := Split(cont, sectors, shared, room, n); AllFit(r.1, r.2, room) == true
    decreases n
  {
    var k := Kept(room, shared);
    if k == |shared| {
      SplitFitting(cont, sectors, shared, room, n);
      assert shared[..k] == shared;
    } else if n > 0 {
      var a := Appended(cont, sectors, shared[k..]);
      var changed := shared[k := a.1];
      assert changed[..k] == shared[..k];
      SplitFits(cont, a.0, changed, room, n - 1);
      SplitStable(cont, a.0, changed, room, n - 1, k);
      var r := Split(cont, a.0, changed, room, n - 1);
      FitMore(r.1, k, r.2, room);
    }
  }

  lemma CeShown(shared: seq<Entry>, k: nat, room: nat)
    requires k < |shared| && shared[k].CE? && Total(shared[..k]) + CE_LENGTH <= room
    ensures Total(shared[..k + 1]) <= room
  {
    Snoc(shared, k);
    RunLength(shared[..k], shared[k]);
  }

  lemma {:induction false} SplitKeeps(cont: Lba, sectors: seq<Sector>, shared: seq<Entry>, room: nat, n: nat)
    requires AllValid(shared) && AreaOk(sectors)
    ensures var r := Split(cont, sectors, shared, room, n); AreaOk(r.0) && Extends(sectors, r.0)
    decreases n
  {
    var k := Kept(room, shared);
    if n > 0 && k < |shared| {
      var trail := AppendKeeps(cont, sectors, shared[k..]);
      var a := Appended(cont, sectors, shared[k..]);
      SplitKeeps(cont, a.0, shared[k := a.1], room, n - 1);
    } else if n > 0 {
      SplitKeeps(cont, sectors, shared, room, n - 1);
    }
  }

  ghost predicate RecordsInOrder(recs: seq<Record>) { forall i | 0 <= i < |recs| :: RecordOk(recs[i]) }

  /** Every record is one that can be written. */
  lemma RecordsOk(cont: Lba, sectors: seq<Sector>, it: Item)
    requires ItemOk(it)
    ensures var r := Split(cont, sectors, it.entries, RoomFor(it.identifier), |it.parts|);
      RecordsInOrder(RecordsOf(it, r.1, r.2)) == true
  {
    var room := RoomFor(it.identifier);
    SplitFits(cont, sectors, it.entries, room, |it.parts|);
    var r := Split(cont, sectors, it.entries, room, |it.parts|);
    var records := RecordsOf(it, r.1, r.2);
    forall i | 0 <= i < |records| ensures RecordOk(records[i]) {
      assert Total(r.1[..r.2[i]]) <= room;
    }
  }
}
