/** Reading a concatenation of objects (pkg/storage/concat.go, pkg/interval/interval.go). */
module Concat {
  import opened Prelude

  datatype Interval = Interval(start: int, end: int) {
    predicate Contains(x: int) { start <= x < end }
  }

  function Intersection(a: Interval, b: Interval): Option<Interval> {
    var start := if a.start > b.start then a.start else b.start;
    var end := if a.end < b.end then a.end else b.end;
    if start < end then Some(Interval(start, end)) else None
  }

  /** It is the common part of two half-open intervals, and exists exactly when they share a point. */
  lemma IntersectionCorrect(a: Interval, b: Interval)
    ensures var r := Intersection(a, b);
      && (r.Some? <==> exists x: int :: a.Contains(x) && b.Contains(x))
      && (r.Some? ==> forall x: int :: r.value.Contains(x) <==> a.Contains(x) && b.Contains(x))
  {
    var r := Intersection(a, b);
    if r.Some? { assert a.Contains(r.value.start) && b.Contains(r.value.start); }
  }

  datatype Error = NoError | Eof | UnexpectedEof | Fault

  /** An object and how a read of it may go wrong: after `most` bytes, with EOF or another error. */
  datatype Object = Object(data: Bytes, trouble: Option<(nat, bool)>) {
    /** The reply to a read of `len` bytes at `off`: how many arrived, and the error. */
    function Reply(off: nat, len: nat): (r: (nat, Error))
      ensures r.0 <= len && (off <= |data| ==> off + r.0 <= |data|)
      ensures trouble.None? && off + len <= |data| ==> r == (len, NoError)
    {
      var available := if off >= |data| then 0 else if |data| - off < len then |data| - off else len;
      match trouble
      case None => (available, if available < len then Eof else NoError)
      case Some((most, eof)) => (if most < available then most else available, if eof then Eof else Fault)
    }
  }

  /** The simple concatenation that reads are measured against. */
  function Flat(objects: seq<Object>): Bytes {
    if objects == [] then [] else objects[0].data + Flat(objects[1..])
  }

  lemma {:induction false} FlatAppend(objects: seq<Object>, o: Object)
    ensures Flat(objects + [o]) == Flat(objects) + o.data
  {
    if objects == [] {
      assert (objects + [o])[1..] == [];
    } else {
      FlatAppend(objects[1..], o);
      assert (objects + [o])[1..] == objects[1..] + [o];
    }
  }

  datatype Part = Part(offset: nat, obj: Object) {
    function End(): nat { offset + |obj.data| }
  }

  ghost predicate PartOk(p: Part, flat: Bytes) {
    p.End() <= |flat| && flat[p.offset..p.End()] == p.obj.data
  }

  /** `q` starts where the non-empty `p` ends. */
  ghost predicate Joined(p: Part, q: Part) {
    p.obj.data != [] && q.offset == p.End()
  }

  /** The ordered tree of parts: one entry per offset, in order of offset, tiling `flat`;
    only the last entry can be empty. */
  ghost predicate Layout(parts: seq<Part>, flat: Bytes) {
    && (parts == [] ==> flat == [])
    && (parts != [] ==> parts[0].offset == 0 && parts[|parts| - 1].End() == |flat|)
    && (forall k {:trigger PartOk(parts[k], flat)} | 0 <= k < |parts| :: PartOk(parts[k], flat))
    && (forall k {:trigger Joined(parts[k], parts[k + 1])} | 0 <= k < |parts| - 1 :: Joined(parts[k], parts[k + 1]))
  }

  /** `ReplaceOrInsert` at an offset no smaller than those present. */
  function ReplaceOrInsert(parts: seq<Part>, p: Part): seq<Part> {
    if parts != [] && parts[|parts| - 1].offset == p.offset then parts[..|parts| - 1] + [p] else parts + [p]
  }

  lemma PartStable(p: Part, flat: Bytes, more: Bytes)
    requires PartOk(p, flat)
    ensures PartOk(p, flat + more)
  {
    assert (flat + more)[p.offset..p.End()] == flat[p.offset..p.End()];
  }

  lemma InsertKeepsLayout(parts: seq<Part>, flat: Bytes, o: Object)
    requires Layout(parts, flat)
    ensures Layout(ReplaceOrInsert(parts, Part(|flat|, o)), flat + o.data) == true
  {
    var p := Part(|flat|, o);
    var parts', flat' := ReplaceOrInsert(parts, p), flat + o.data;
    assert flat'[|flat|..] == o.data && flat'[p.offset..p.End()] == flat'[|flat|..];
    forall k {:trigger PartOk(parts'[k], flat')} | 0 <= k < |parts'| ensures PartOk(parts'[k], flat') {
      if k < |parts'| - 1 {
        assert PartOk(parts[k], flat);
        PartStable(parts[k], flat, o.data);
      }
    }
    var last := |parts| - 1;
    assert parts != [] ==> PartOk(parts[last], flat);
    forall k {:trigger Joined(parts'[k], parts'[k + 1])} | 0 <= k < |parts'| - 1
      ensures Joined(parts'[k], parts'[k + 1])
    {
      assert k < last ==> Joined(parts[k], parts[k + 1]);
    }
  }

  /** `concat`: build the ordered tree. */
  method Build(objects: seq<Object>) returns (parts: seq<Part>, size: nat)
    ensures Layout(parts, Flat(objects)) && size == |Flat(objects)|
    ensures objects != [] ==> parts != [] && parts[|parts| - 1].obj == objects[|objects| - 1]
    ensures forall part | part in parts :: part.obj in objects
  {
    parts, size := [], 0;
    ghost var done: seq<Object>, flat: Bytes := [], [];
    for i := 0 to |objects|
      invariant done == objects[..i] && flat == Flat(done) && Layout(parts, flat) == true && size == |flat|
      invariant i > 0 ==> parts != [] && parts[|parts| - 1].obj == objects[i - 1]
      invariant forall part | part in parts :: part.obj in objects
    {
      InsertKeepsLayout(parts, flat, objects[i]);
      FlatAppend(done, objects[i]);
      Snoc(objects, i);
      parts := ReplaceOrInsert(parts, Part(size, objects[i]));
      size, done, flat := size + |objects[i].data|, done + [objects[i]], flat + objects[i].data;
    }
    assert objects[..|objects|] == objects;
  }

  /** A piece of work: fill `lo..lo+len` of the caller's buffer from `off` in the object. */
  datatype Item = Item(obj: Object, lo: nat, len: nat, off: nat)

  ghost predicate ItemOk(item: Item, off: nat, flat: Bytes) {
    && item.len > 0 && item.off + item.len <= |item.obj.data| && off + item.lo + item.len <= |flat|
    && flat[off + item.lo..off + item.lo + item.len] == item.obj.data[item.off..item.off + item.len]
  }

  /** Listed from the top down, the items tile `bottom..top` of the request and name the right bytes. */
  ghost predicate Tiling(items: seq<Item>, bottom: nat, top: nat, off: nat, flat: Bytes) {
    if items == [] then bottom == top
    else
      var rest, last := items[..|items| - 1], items[|items| - 1];
      ItemOk(last, off, flat) && last.lo == bottom && Tiling(rest, last.lo + last.len, top, off, flat)
  }

  /** The trailing empty part stops the descent of a read that reaches past the end. */
  ghost predicate Stuck(parts: seq<Part>, size: nat, off: nat, len: nat) {
    parts != [] && parts[|parts| - 1].obj.data == [] && off + len > size
  }

  /** Where the descent stands: the bytes from `bottom` up are covered, and the entry below `k` comes next. */
  ghost predicate Descending(parts: seq<Part>, off: nat, end: nat, bottom: nat, k: nat) {
    && k <= |parts| && off + bottom <= end
    && (bottom > 0 ==>
          && k > 0 && parts[k - 1].offset < off + bottom <= parts[k - 1].End()
          && (off + bottom == end || off + bottom == parts[k - 1].End()))
    && (bottom == 0 && k > 0 ==> parts[k - 1].End() <= off)
  }

  function ItemFor(part: Part, off: nat, z: Interval): Item
    requires off <= z.start <= z.end && part.offset <= z.start
  {
    Item(part.obj, z.start - off, z.end - z.start, z.start - part.offset)
  }

  lemma SubSlice(flat: Bytes, lo: nat, hi: nat, a: nat, b: nat)
    requires lo <= a <= b <= hi <= |flat|
    ensures flat[a..b] == flat[lo..hi][a - lo..b - lo]
  {
    var whole := flat[lo..hi];
    forall i | 0 <= i < b - a ensures flat[a..b][i] == whole[a - lo..b - lo][i] {}
  }

  lemma ItemFits(part: Part, flat: Bytes, off: nat, a: nat, b: nat)
    requires PartOk(part, flat) && off <= a && part.offset <= a < b <= part.End()
    ensures ItemOk(ItemFor(part, off, Interval(a, b)), off, flat)
  {
    SubSlice(flat, part.offset, part.End(), a, b);
  }

  /** One entry of the descent: it meets the request exactly below `bottom`, or the request is covered. */
  lemma DescendStep(parts: seq<Part>, flat: Bytes, off: nat, end: nat, bottom: nat, k: nat)
    requires Layout(parts, flat) && Descending(parts, off, end, bottom, k) && k > 0 && off < end <= |flat|
    ensures var part := parts[k - 1];
      var z := Intersection(Interval(off, end), Interval(part.offset, part.End()));
      if bottom == 0 then z.None?
      else
        && z.Some? && z.value.end == off + bottom && off <= z.value.start && part.offset <= z.value.start
        && ItemOk(ItemFor(part, off, z.value), off, flat)
        && Descending(parts, off, end, z.value.start - off, k - 1)
  {
    var part := parts[k - 1];
    assert PartOk(part, flat);
    if k >= 2 {
      var i := k - 2;
      assert Joined(parts[i], parts[i + 1]);
    }
    if bottom > 0 {
      ItemFits(part, flat, off, if off > part.offset then off else part.offset, off + bottom);
    }
  }

  /** The search for the greatest entry at or below the last byte asked for starts the descent. */
  lemma DescendStart(parts: seq<Part>, flat: Bytes, off: nat, len: nat, k: nat)
    requires Layout(parts, flat) && off < |flat| && len > 0 && k <= |parts|
    requires k > 0 ==> parts[k - 1].offset <= off + len - 1
    requires k < |parts| ==> parts[k].offset > off + len - 1
    ensures k > 0
    ensures var end := if |flat| < off + len then |flat| else off + len;
      if Stuck(parts, |flat|, off, len) then k == |parts| else Descending(parts, off, end, end - off, k)
  {
    assert parts != [];
    var last := |parts| - 1;
    assert PartOk(parts[last], flat);
    if k < |parts| { assert k > 0; }
    if 0 < k < |parts| {
      var i := k - 1;
      assert Joined(parts[i], parts[i + 1]);
      assert PartOk(parts[k], flat);
    }
  }

  /** The part holds some of the bytes asked for. */
  ghost predicate Touches(part: Part, off: nat, end: nat) {
    Intersection(Interval(off, end), Interval(part.offset, part.End())).Some?
  }

  /** What is read of a part. */
  ghost function Share(part: Part, off: nat, end: nat): Item
    requires Touches(part, off, end)
  {
    ItemFor(part, off, Intersection(Interval(off, end), Interval(part.offset, part.End())).value)
  }

  ghost predicate IsShare(item: Item, part: Part, off: nat, end: nat) {
    Touches(part, off, end) && item == Share(part, off, end)
  }

  /** The items are the shares of the parts below `hi`, from the top down. */
  ghost predicate Shares(items: seq<Item>, parts: seq<Part>, hi: nat, off: nat, end: nat) {
    |items| <= hi <= |parts|
    && forall t {:trigger items[t]} | 0 <= t < |items| :: IsShare(items[t], parts[hi - 1 - t], off, end)
  }

  lemma SharesMore(items: seq<Item>, parts: seq<Part>, hi: nat, off: nat, end: nat)
    requires Shares(items, parts, hi, off, end) && |items| < hi && Touches(parts[hi - 1 - |items|], off, end)
    ensures Shares(items + [Share(parts[hi - 1 - |items|], off, end)], parts, hi, off, end) == true
  {
    var more := items + [Share(parts[hi - 1 - |items|], off, end)];
    forall t {:trigger more[t]} | 0 <= t < |more| ensures IsShare(more[t], parts[hi - 1 - t], off, end) {
      if t < |items| { assert more[t] == items[t]; }
    }
  }

  lemma {:induction false} PartsRise(parts: seq<Part>, flat: Bytes, i: nat, j: nat)
    requires Layout(parts, flat) && i <= j < |parts|
    ensures parts[i].offset <= parts[j].offset && parts[i].End() <= parts[j].End()
  {
    if i < j {
      PartsRise(parts, flat, i, j - 1);
      var k := j - 1;
      assert Joined(parts[k], parts[k + 1]);
    }
  }

  /** The parts that were left out hold nothing of what is asked for. */
  lemma OthersAside(parts: seq<Part>, flat: Bytes, off: nat, end: nat, lo: nat, hi: nat)
    requires Layout(parts, flat) && lo <= hi <= |parts|
    requires (lo > 0 ==> parts[lo - 1].End() <= off) && (hi < |parts| ==> parts[hi].offset >= end)
    ensures forall k | 0 <= k < |parts| && Touches(parts[k], off, end) :: lo <= k < hi
  {
    forall k | 0 <= k < |parts| && Touches(parts[k], off, end) ensures lo <= k < hi {
      if k < lo { PartsRise(parts, flat, k, lo - 1); }
      if k >= hi { PartsRise(parts, flat, hi, k); }
    }
  }

  /** Exactly the parts that hold some of the bytes asked for are read, each for its share. */
  ghost predicate Taken(items: seq<Item>, parts: seq<Part>, off: nat, end: nat) {
    exists hi: nat :: Shares(items, parts, hi, off, end)
      && forall k | 0 <= k < |parts| && Touches(parts[k], off, end) :: hi - |items| <= k < hi
  }

  /** The descent of `ReadAt` through the tree. */
  method Collect(parts: seq<Part>, size: nat, off: nat, len: nat, end: nat, ghost want: nat, ghost flat: Bytes)
    returns (items: seq<Item>)
    requires Layout(parts, flat) && size == |flat| && off < size && len > 0
    requires end == (if size < off + len then size else off + len) && off + want == end
    ensures Stuck(parts, size, off, len) ==> items == []
    ensures !Stuck(parts, size, off, len) ==>
      Tiling(items, 0, want, off, flat) == true && Taken(items, parts, off, end) == true
  {
    items := [];
    var k := |parts|;
    while k > 0 && parts[k - 1].offset > off + len - 1
      invariant 0 <= k <= |parts| && Layout(parts, flat) == true
      invariant k < |parts| ==> parts[k].offset > off + len - 1
    {
      k := k - 1;
    }
    ghost var stuck, hi, bottom: nat := Stuck(parts, size, off, len), k, want;
    CollectStart(parts, flat, off, len, end, want, k);
    while k > 0
      invariant 0 <= k <= |parts|
      invariant stuck ==> items == [] && k == |parts|
      invariant !stuck ==> Descends(items, parts, hi, k, off, end, bottom, flat) == true
    {
      var part := parts[k - 1];
      var z := Intersection(Interval(off, end), Interval(part.offset, part.End()));
      if !stuck { CollectStep(items, parts, hi, k, off, end, bottom, flat); }
      if z.None? {
        break;
      }
      var item := ItemFor(part, off, z.value);
      items := items + [item];
      bottom := item.lo;
      k := k - 1;
    }
    if !stuck { CollectEnd(items, parts, hi, k, off, end, bottom, flat, want); }
  }

  ghost predicate UnfoldDescent(u: bool) { true }

  /** Where the loop stands. (Only unfolded where `UnfoldDescent(true)` is asserted.) */
  ghost predicate Descends(items: seq<Item>, parts: seq<Part>, hi: nat, k: nat, off: nat, end: nat, bottom: nat,
      flat: Bytes) {
    forall u {:trigger UnfoldDescent(u)} :: UnfoldDescent(u) ==>
      Layout(parts, flat) && off < end <= |flat| && |items| == hi - k && k <= hi && Shares(items, parts, hi, off, end)
      && (hi < |parts| ==> parts[hi].offset >= end)
      && bottom <= end - off && Tiling(items, bottom, end - off, off, flat) && Descending(parts, off, end, bottom, k)
  }

  lemma CollectStart(parts: seq<Part>, flat: Bytes, off: nat, len: nat, end: nat, want: nat, k: nat)
    requires Layout(parts, flat) && off < |flat| && len > 0 && k <= |parts|
    requires (k > 0 ==> parts[k - 1].offset <= off + len - 1) && (k < |parts| ==> parts[k].offset > off + len - 1)
    requires end == (if |flat| < off + len then |flat| else off + len) && off + want == end
    ensures if Stuck(parts, |flat|, off, len) then k == |parts|
      else Descends([], parts, k, k, off, end, want, flat) == true
  {
    DescendStart(parts, flat, off, len, k);
  }

  lemma CollectStep(items: seq<Item>, parts: seq<Part>, hi: nat, k: nat, off: nat, end: nat, bottom: nat, flat: Bytes)
    requires Descends(items, parts, hi, k, off, end, bottom, flat) == true && 0 < k <= |parts|
    ensures if bottom == 0 then !Touches(parts[k - 1], off, end)
      else Touches(parts[k - 1], off, end) && var item := Share(parts[k - 1], off, end);
        Descends(items + [item], parts, hi, k - 1, off, end, item.lo, flat) == true
  {
    assert UnfoldDescent(true);
    DescendStep(parts, flat, off, end, bottom, k);
    if bottom > 0 {
      var item := Share(parts[k - 1], off, end);
      assert (items + [item])[..|items|] == items;
      SharesMore(items, parts, hi, off, end);
    }
  }

  lemma CollectEnd(items: seq<Item>, parts: seq<Part>, hi: nat, k: nat, off: nat, end: nat, bottom: nat, flat: Bytes,
      want: nat)
    requires Descends(items, parts, hi, k, off, end, bottom, flat) == true && k <= |parts|
    requires (k > 0 ==> !Touches(parts[k - 1], off, end)) && off + want == end
    ensures Tiling(items, 0, want, off, flat) == true && Taken(items, parts, off, end) == true
  {
    assert UnfoldDescent(true);
    if k > 0 { DescendStep(parts, flat, off, end, bottom, k); }
    OthersAside(parts, flat, off, end, k, hi);
  }

  lemma {:induction false} TilingItem(items: seq<Item>, bottom: nat, top: nat, off: nat, flat: Bytes, i: nat)
    requires Tiling(items, bottom, top, off, flat) && i < |items|
    ensures ItemOk(items[i], off, flat) && bottom <= items[i].lo && items[i].lo + items[i].len <= top
    ensures items[i].lo == if i == |items| - 1 then bottom else items[i + 1].lo + items[i + 1].len
    ensures items[0].lo + items[0].len == top
  {
    var rest, last := items[..|items| - 1], items[|items| - 1];
    if rest != [] {
      var at := if i == |items| - 1 then i - 1 else i;
      TilingItem(rest, last.lo + last.len, top, off, flat, at);
      assert rest[at] == items[at] && rest[0] == items[0];
    }
  }

  lemma {:induction false} TilingApart(items: seq<Item>, bottom: nat, top: nat, off: nat, flat: Bytes, i: nat, j: nat)
    requires Tiling(items, bottom, top, off, flat) && i < j < |items|
    ensures items[j].lo + items[j].len <= items[i].lo
    decreases j
  {
    TilingItem(items, bottom, top, off, flat, i);
    TilingItem(items, bottom, top, off, flat, j - 1);
    if i < j - 1 { TilingApart(items, bottom, top, off, flat, i, j - 1); }
  }

  ghost function Arrived(item: Item): nat { item.obj.Reply(item.off, item.len).0 }

  /** What has arrived of every item stands in its place in the buffer. */
  ghost predicate AllDelivered(p: Bytes, items: seq<Item>, off: nat, flat: Bytes) {
    forall i | 0 <= i < |items| :: Delivered(p, items[i], off, flat)
  }

  ghost predicate Delivered(p: Bytes, item: Item, off: nat, flat: Bytes) {
    var n := Arrived(item);
    item.lo + n <= |p| && off + item.lo + n <= |flat|
      && p[item.lo..item.lo + n] == flat[off + item.lo..off + item.lo + n]
  }

  /** Read one part into its slice of the buffer. */
  method Fetch(item: Item, p: array<Byte>, ghost off: nat, ghost flat: Bytes) returns (n: nat, err: Error)
    requires ItemOk(item, off, flat) && item.lo + item.len <= p.Length
    modifies p
    ensures (n, err) == item.obj.Reply(item.off, item.len) && Delivered(p[..], item, off, flat) == true
    ensures forall k | 0 <= k < p.Length && !(item.lo <= k < item.lo + item.len) :: p[k] == old(p[k])
  {
    var reply := item.obj.Reply(item.off, item.len);
    n, err := reply.0, reply.1;
    for k := 0 to n
      invariant forall x | item.lo <= x < item.lo + k :: p[x] == item.obj.data[item.off + (x - item.lo)]
      invariant forall j | 0 <= j < p.Length && !(item.lo <= j < item.lo + item.len) :: p[j] == old(p[j])
    {
      p[item.lo + k] := item.obj.data[item.off + k];
    }
    SameSlice(p[..], item.obj.data, item.lo, item.off, n);
    DeliveredIs(p[..], item, off, flat, n);
  }

  lemma DeliveredIs(p: Bytes, item: Item, off: nat, flat: Bytes, n: nat)
    requires ItemOk(item, off, flat) && n == Arrived(item) && item.lo + n <= |p|
    requires p[item.lo..item.lo + n] == item.obj.data[item.off..item.off + n]
    ensures Delivered(p, item, off, flat) == true
  {
    SliceHead(flat, off + item.lo, item.len, n);
    SliceHead(item.obj.data, item.off, item.len, n);
  }

  lemma SameSlice(p: Bytes, data: Bytes, lo: nat, off: nat, n: nat)
    requires lo + n <= |p| && off + n <= |data| && forall x | lo <= x < lo + n :: p[x] == data[off + (x - lo)]
    ensures p[lo..lo + n] == data[off..off + n]
  {
  }

  lemma SliceHead(s: Bytes, from: nat, len: nat, n: nat)
    requires n <= len && from + len <= |s|
    ensures s[from..from + len][..n] == s[from..from + n]
  {
  }

  lemma DeliveredStays(before: Bytes, after: Bytes, item: Item, off: nat, flat: Bytes)
    requires |before| == |after| && Delivered(before, item, off, flat) && item.lo + item.len <= |before|
    requires forall k | item.lo <= k < item.lo + item.len :: after[k] == before[k]
    ensures Delivered(after, item, off, flat)
  {
    var n := Arrived(item);
    assert after[item.lo..item.lo + n] == before[item.lo..item.lo + n];
  }

  /** The reads may run in any order, one after another or as goroutines: their slices do not overlap. */
  method FetchAll(items: seq<Item>, p: array<Byte>, want: nat, ghost off: nat, ghost flat: Bytes)
    requires Tiling(items, 0, want, off, flat) == true && want <= p.Length
    modifies p
    ensures AllDelivered(p[..], items, off, flat) == true && p[want..] == old(p[want..])
  {
    var todo := set i {:trigger items[i]} | 0 <= i < |items|;
    while todo != {}
      invariant forall i | i in todo :: 0 <= i < |items|
      invariant forall i | 0 <= i < |items| && i !in todo :: Delivered(p[..], items[i], off, flat)
      invariant p[want..] == old(p[want..])
    {
      var i :| i in todo;
      TilingItem(items, 0, want, off, flat, i);
      ghost var before := p[..];
      var _, _ := Fetch(items[i], p, off, flat);
      forall j | 0 <= j < |items| && j !in todo ensures Delivered(p[..], items[j], off, flat) {
        TilingItem(items, 0, want, off, flat, j);
        if i < j {
          TilingApart(items, 0, want, off, flat, i, j);
        } else {
          TilingApart(items, 0, want, off, flat, j, i);
        }
        DeliveredStays(before, p[..], items[j], off, flat);
      }
      todo := todo - {i};
    }
  }

  /** The first `n` bytes of the buffer are the first `n` bytes asked for. */
  ghost predicate Correct(p: Bytes, flat: Bytes, off: nat, n: nat) {
    n <= |p| && off + n <= |flat| && p[..n] == flat[off..off + n]
  }

  lemma CorrectMore(p: Bytes, flat: Bytes, off: nat, n: nat, m: nat)
    requires Correct(p, flat, off, n) && n + m <= |p| && off + n + m <= |flat|
    requires p[n..n + m] == flat[off + n..off + n + m]
    ensures Correct(p, flat, off, n + m) == true
  {
    Slices(p, 0, n, n + m);
    Slices(flat, off, off + n, off + n + m);
  }

  lemma Slices(s: Bytes, a: nat, b: nat, c: nat)
    requires a <= b <= c <= |s|
    ensures s[a..c] == s[a..b] + s[b..c]
  {
  }

  /** All bytes arrived, whether or not the end of the object was reported with them. */
  ghost predicate Whole(item: Item) {
    var (n, err) := item.obj.Reply(item.off, item.len); n == item.len && (err == NoError || err == Eof)
  }

  ghost predicate AllWhole(items: seq<Item>) { forall i | 0 <= i < |items| :: Whole(items[i]) }

  /** The first item, from the lowest up, that did not arrive whole, and what is reported of it. */
  ghost predicate FailsAt(items: seq<Item>, i: nat, n: nat, err: Error) {
    i < |items| && !Whole(items[i]) && (forall j | i < j < |items| :: Whole(items[j]))
    && var reply := items[i].obj.Reply(items[i].off, items[i].len);
    n == items[i].lo + reply.0 && err == if reply.1 == Fault then Fault else UnexpectedEof
  }

  ghost predicate UnfoldSum(u: bool) { true }

  /** The bytes below `items[i]` are counted. (Only unfolded where `UnfoldSum(true)` is asserted.) */
  ghost predicate CountedTo(items: seq<Item>, i: nat, n: nat, want: nat, p: Bytes, flat: Bytes, off: nat) {
    forall u {:trigger UnfoldSum(u)} :: UnfoldSum(u) ==>
      Tiling(items, 0, want, off, flat) == true && AllDelivered(p, items, off, flat)
      && i <= |items| && n == (if i == |items| then 0 else items[i].lo + items[i].len) && Correct(p, flat, off, n)
      && forall j | i <= j < |items| :: Whole(items[j])
  }

  lemma SumStart(items: seq<Item>, want: nat, p: Bytes, off: nat, flat: Bytes)
    requires Tiling(items, 0, want, off, flat) == true && AllDelivered(p, items, off, flat) && off <= |flat|
    ensures CountedTo(items, |items|, 0, want, p, flat, off) == true
  {
  }

  lemma SumStep(items: seq<Item>, want: nat, p: Bytes, off: nat, flat: Bytes, i: nat, n: nat)
    requires 0 < i <= |items| && CountedTo(items, i, n, want, p, flat, off) == true
    ensures var item := items[i - 1];
      var (m, err) := item.obj.Reply(item.off, item.len);
      m <= item.len && n + m <= want && Correct(p, flat, off, n + m) == true
      && if Whole(item) then CountedTo(items, i - 1, n + m, want, p, flat, off) == true
        else FailsAt(items, i - 1, n + m, if err == Fault then Fault else UnexpectedEof) == true
  {
    assert UnfoldSum(true);
    TilingItem(items, 0, want, off, flat, i - 1);
    assert Delivered(p, items[i - 1], off, flat);
    CorrectMore(p, flat, off, n, Arrived(items[i - 1]));
  }

  lemma SumEnd(items: seq<Item>, want: nat, p: Bytes, off: nat, flat: Bytes, n: nat)
    requires CountedTo(items, 0, n, want, p, flat, off) == true
    ensures n == want && AllWhole(items) == true && Correct(p, flat, off, n) == true
  {
    assert UnfoldSum(true);
    if items != [] { TilingItem(items, 0, want, off, flat, 0); }
  }

  lemma NotWhole(items: seq<Item>, n: nat, err: Error)
    requires exists i: nat :: FailsAt(items, i, n, err)
    ensures !AllWhole(items)
  {
    var i: nat :| FailsAt(items, i, n, err);
    assert !Whole(items[i]);
  }

  /** Adding up the replies from the lowest part: the bytes counted are a correct prefix, even when a part fails: those
    of the parts before it, and what arrived of it. */
  method Sum(items: seq<Item>, want: nat, ghost p: Bytes, ghost off: nat, ghost flat: Bytes)
    returns (n: nat, err: Error)
    requires Tiling(items, 0, want, off, flat) == true && off + want <= |flat| && want <= |p|
    requires AllDelivered(p, items, off, flat) == true
    ensures n <= want && Correct(p, flat, off, n) == true
    ensures err == NoError || err == UnexpectedEof || err == Fault
    ensures err == NoError ==> n == want && AllWhole(items) == true
    ensures err != NoError ==> exists i: nat :: FailsAt(items, i, n, err)
  {
    n := 0;
    var i := |items|;
    SumStart(items, want, p, off, flat);
    while i > 0
      invariant 0 <= i <= |items| && CountedTo(items, i, n, want, p, flat, off) == true
    {
      var item := items[i - 1];
      var reply := item.obj.Reply(item.off, item.len);
      SumStep(items, want, p, off, flat, i, n);
      i := i - 1;
      n := n + reply.0;
      if reply.1 != NoError && reply.1 != Eof {
        return n, reply.1;
      }
      if reply.0 < item.len {
        return n, UnexpectedEof;
      }
    }
    SumEnd(items, want, p, off, flat, n);
    err := NoError;
  }

  /** None of the parts fails. */
  ghost predicate Healthy(parts: seq<Part>) {
    forall part | part in parts :: part.obj.trouble.None?
  }

  /** Every part that holds some of the bytes asked for delivers all of its share. */
  ghost predicate AllArrive(parts: seq<Part>, off: nat, end: nat) {
    forall k | 0 <= k < |parts| && Touches(parts[k], off, end) :: Whole(Share(parts[k], off, end))
  }

  lemma TakenArrive(items: seq<Item>, parts: seq<Part>, off: nat, end: nat)
    requires Taken(items, parts, off, end)
    ensures AllArrive(parts, off, end) == true <==> AllWhole(items) == true
  {
    var hi: nat :| Shares(items, parts, hi, off, end)
      && forall k | 0 <= k < |parts| && Touches(parts[k], off, end) :: hi - |items| <= k < hi;
    if AllArrive(parts, off, end) {
      forall i | 0 <= i < |items| ensures Whole(items[i]) { assert IsShare(items[i], parts[hi - 1 - i], off, end); }
    }
    if forall i | 0 <= i < |items| :: Whole(items[i]) {
      forall k | 0 <= k < |parts| && Touches(parts[k], off, end) ensures Whole(Share(parts[k], off, end)) {
        assert IsShare(items[hi - 1 - k], parts[k], off, end);
      }
    }
  }

  lemma HealthyArrive(parts: seq<Part>, off: nat, end: nat)
    requires Healthy(parts)
    ensures AllArrive(parts, off, end)
  {
    forall k | 0 <= k < |parts| && Touches(parts[k], off, end) ensures Whole(Share(parts[k], off, end)) {
      assert parts[k] in parts;
    }
  }

  /** `concatenated.ReadAt` into the first `len` bytes of `p`, in either mode. */
  method ReadAt(parts: seq<Part>, size: nat, p: array<Byte>, len: nat, off: nat, ghost flat: Bytes)
    returns (n: nat, err: Error)
    requires Layout(parts, flat) && size == |flat| && len <= p.Length
    modifies p
    // what is counted is a correct prefix of the bytes asked for, whatever fails
    ensures n <= |Copied(flat, off, len)| && p[..n] == Copied(flat, off, len)[..n]
    // success means all the bytes there are
    ensures err == NoError ==> n == |Copied(flat, off, len)|
    ensures (err == Eof <==> len > 0 && off >= size) && (len == 0 ==> err == NoError)
    // the read succeeds exactly if all parts deliver their shares and no trailing empty part is in the way
    ensures len > 0 && off < size ==>
      (err == NoError <==>
        !Stuck(parts, size, off, len) && AllArrive(parts, off, if size < off + len then size else off + len))
    ensures p[|Copied(flat, off, len)|..] == old(p[|Copied(flat, off, len)|..])
  {
    if len == 0 {
      return 0, NoError;
    }
    if off >= size {
      return 0, Eof;
    }
    var end := if size < off + len then size else off + len;
    assert Copied(flat, off, len) == flat[off..end];
    n, err := ReadWanted(parts, size, p, len, off, end, end - off, flat);
    CorrectIs(p[..], flat, off, end, n);
    assert p[..][..n] == p[..n];
  }

  lemma CorrectIs(p: Bytes, flat: Bytes, off: nat, end: nat, n: nat)
    requires Correct(p, flat, off, n) && off + n <= end <= |flat|
    ensures p[..n] == flat[off..end][..n]
  {
    SliceHead(flat, off, end - off, n);
  }

  /** The read itself, of the bytes up to `end`. */
  method ReadWanted(parts: seq<Part>, size: nat, p: array<Byte>, len: nat, off: nat, end: nat, want: nat,
      ghost flat: Bytes) returns (n: nat, err: Error)
    requires Layout(parts, flat) == true && size == |flat| && 0 < len <= p.Length && off < size
    requires end == (if size < off + len then size else off + len) && off + want == end
    modifies p
    ensures n <= want && Correct(p[..], flat, off, n) == true && p[want..] == old(p[want..])
    ensures (err == NoError ==> n == want) && err != Eof
    ensures err == NoError <==> !Stuck(parts, size, off, len) && AllArrive(parts, off, end) == true
  {
    var items := Collect(parts, size, off, len, end, want, flat);
    if items == [] {
      return 0, UnexpectedEof; // some bytes were wanted and none came
    }
    TakenArrive(items, parts, off, end);
    FetchAll(items, p, want, off, flat);
    n, err := Sum(items, want, p[..], off, flat);
    if err != NoError { NotWhole(items, n, err); }
  }

  /** The condition is real: two bytes asked of one byte followed by an empty part. */
  lemma StuckExample()
    ensures var parts := [Part(0, Object([7], None)), Part(1, Object([], None))];
      Layout(parts, Flat([parts[0].obj, parts[1].obj])) && Healthy(parts) && Stuck(parts, 1, 0, 2)
  {
    var a, b := Object([7], None), Object([], None);
    var parts := [Part(0, a), Part(1, b)];
    assert Flat([a, b]) == [7] by {
      assert [a, b][1..] == [b] && [b][1..] == [];
      assert Flat([b]) == [];
    }
    assert PartOk(parts[0], [7]) && PartOk(parts[1], [7]) && Joined(parts[0], parts[1]);
  }

  // ----- whatever is joined -----

  /** What `concat` returns: a single object is returned as it is. */
  datatype Image = Single(obj: Object) | Tree(parts: seq<Part>, size: nat)

  ghost predicate Joins(image: Image, objects: seq<Object>) {
    match image
    case Single(obj) => objects == [obj]
    case Tree(parts, size) =>
      Layout(parts, Flat(objects)) && size == |Flat(objects)|
      && (objects != [] ==> parts != [] && parts[|parts| - 1].obj == objects[|objects| - 1])
      && forall part | part in parts :: part.obj in objects
  }

  method Concatenate(objects: seq<Object>) returns (image: Image)
    ensures Joins(image, objects)
  {
    if |objects| == 1 {
      return Single(objects[0]);
    }
    var parts, size := Build(objects);
    image := Tree(parts, size);
  }

  /** No object fails, and the last one is not empty. */
  ghost predicate Sound(objects: seq<Object>) {
    (forall o | o in objects :: o.trouble.None?) && (objects != [] ==> objects[|objects| - 1].data != [])
  }

  /** A read of an object itself. */
  method ReadObject(obj: Object, p: array<Byte>, len: nat, off: nat) returns (n: nat, err: Error)
    requires len <= p.Length
    modifies p
    ensures (n, err) == obj.Reply(off, len) && n <= |Copied(obj.data, off, len)|
    ensures p[..n] == Copied(obj.data, off, len)[..n] && p[n..] == old(p[n..])
  {
    var reply := obj.Reply(off, len);
    n, err := reply.0, reply.1;
    var bytes := Copied(obj.data, off, len);
    for k := 0 to n
      invariant p[..k] == bytes[..k] && forall j | k <= j < p.Length :: p[j] == old(p[j])
    {
      p[k] := bytes[k];
      assert p[..k + 1] == p[..k] + [bytes[k]] && bytes[..k + 1] == bytes[..k] + [bytes[k]];
    }
  }

  /** A sound image reads like the simple concatenation, wherever the read lies; past the end it is cut short. */
  method ReadImage(image: Image, p: array<Byte>, len: nat, off: nat, ghost objects: seq<Object>)
    returns (n: nat, err: Error)
    requires Joins(image, objects) && len <= p.Length
    modifies p
    ensures n <= |Copied(Flat(objects), off, len)| && p[..n] == Copied(Flat(objects), off, len)[..n]
    ensures Sound(objects) ==> n == |Copied(Flat(objects), off, len)| && (err == NoError || (err == Eof && n < len))
  {
    match image
    case Single(obj) =>
      assert Flat([obj]) == obj.data + Flat([][..]) == obj.data;
      n, err := ReadObject(obj, p, len, off);
    case Tree(parts, size) =>
      n, err := ReadAt(parts, size, p, len, off, Flat(objects));
      if Sound(objects) { HealthyArrive(parts, off, if size < off + len then size else off + len); }
  }
}
