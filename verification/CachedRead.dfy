/** The block-wise cached read of pkg/caching/cache.go. */
module CachedRead {
  import opened Prelude
  import opened Concat

  /** `memSlicer.Slice` and `DiskSlicer.Slice`: at most `bsize` bytes of the object from `offset`.
    `trouble` says how reading block number `block` may fail. */
  function Slice(source: Bytes, offset: nat, bsize: nat, trouble: Option<(nat, bool)>): (slice: Object)
    requires offset <= |source|
    ensures slice.data == Copied(source, offset, bsize)
  {
    var size := if bsize < |source| - offset then bsize else |source| - offset;
    Object(source[offset..offset + size], trouble)
  }

  lemma NextBlock(block: nat, bsize: nat)
    ensures (block + 1) * bsize == block * bsize + bsize
  {
  }

  /** The blocks from `first` up to `last` joined are one stretch of the source. */
  ghost predicate Stretch(objects: seq<Object>, source: Bytes, from: nat, to: nat) {
    from <= to <= |source| && Flat(objects) == source[from..to]
  }

  lemma StretchGrows(objects: seq<Object>, source: Bytes, from: nat, to: nat, bsize: nat, trouble: Option<(nat, bool)>)
    requires Stretch(objects, source, from, to)
    ensures Stretch(objects + [Slice(source, to, bsize, trouble)], source, from, to + |Copied(source, to, bsize)|)
  {
    var slice := Slice(source, to, bsize, trouble);
    FlatAppend(objects, slice);
    var to' := to + |slice.data|;
    assert source[from..to'] == source[from..to] + source[to..to'];
  }

  ghost function Min(a: int, b: int): int { if a < b then a else b }

  /** The loop over blocks: the slices of blocks `first` to `last`. */
  method Slices(source: Bytes, bsize: nat, first: nat, last: nat, trouble: nat -> Option<(nat, bool)>)
    returns (slices: seq<Object>)
    requires bsize > 0 && first <= last && last * bsize <= |source|
    ensures |slices| == last - first + 1
    ensures 0 <= first * bsize <= |source|
    ensures Stretch(slices, source, first * bsize, Min(last * bsize + bsize, |source|))
    ensures forall i {:trigger slices[i]} | 0 <= i < |slices| :: slices[i].trouble == trouble(first + i)
    ensures slices[0].data == Copied(source, first * bsize, bsize)
  {
    slices := [];
    var block := first;
    Ordered(first, last, bsize);
    ghost var base, at: nat := first * bsize, first * bsize;
    assert Flat([]) == source[base..base];
    while block <= last
      invariant first <= block <= last + 1 && |slices| == block - first
      invariant base <= at == block * bsize
      invariant Stretch(slices, source, base, Min(at, |source|))
      invariant forall i {:trigger slices[i]} | 0 <= i < |slices| :: slices[i].trouble == trouble(first + i)
      invariant slices != [] ==> slices[0].data == Copied(source, base, bsize)
    {
      var offset := block * bsize;
      Ordered(block, last, bsize);
      StretchGrows(slices, source, base, offset, bsize, trouble(block));
      slices := slices + [Slice(source, offset, bsize, trouble(block))];
      NextBlock(block, bsize);
      block, at := block + 1, at + bsize;
    }
    NextBlock(last, bsize);
  }

  lemma Ordered(a: nat, b: nat, d: nat)
    requires a <= b
    ensures a * d <= b * d
  {
    assert b * d == a * d + (b - a) * d;
  }

  lemma DivParts(x: nat, d: nat)
    requires d > 0
    ensures 0 <= x % d < d && x == (x / d) * d + x % d
  {
  }

  /** The request lies inside the joined blocks, at the offset the code computes. */
  lemma Window(source: Bytes, off: nat, end: nat, bsize: nat)
    requires bsize > 0 && off < end <= |source|
    ensures off / bsize <= end / bsize && (end / bsize) * bsize <= |source|
    ensures var from, to := (off / bsize) * bsize, Min((end / bsize) * bsize + bsize, |source|);
      && 0 <= from <= off && end <= to <= |source| && off - from == off % bsize
      && source[from..to][off - from..end - from] == source[off..end]
  {
    DivParts(off, bsize);
    DivParts(end, bsize);
    var a, b := off / bsize, end / bsize;
    NextBlock(b, bsize);
    if a > b { Ordered(b + 1, a, bsize); }
    var from, to := a * bsize, Min(b * bsize + bsize, |source|);
    SubSlice(source, from, to, off, end);
  }

  /** `withCaching.ReadAt`: for every block size, offset and length it reads what the object itself holds. */
  method ReadAt(source: Bytes, bsize: nat, p: array<Byte>, off: nat, trouble: nat -> Option<(nat, bool)>)
    returns (n: nat, err: Error)
    requires bsize > 0
    modifies p
    ensures n <= |Copied(source, off, p.Length)| && p[..n] == Copied(source, off, p.Length)[..n]
    ensures err == NoError ==> n == |Copied(source, off, p.Length)|
    ensures p.Length > 0 && off >= |source| ==> err == Eof
    ensures (forall b :: trouble(b).None?) && (p.Length == 0 || off < |source|) ==> err == NoError
    ensures p[|Copied(source, off, p.Length)|..] == old(p[|Copied(source, off, p.Length)|..])
  {
    if p.Length == 0 {
      return 0, NoError;
    }
    var overlap := Intersection(Interval(0, |source|), Interval(off, off + p.Length));
    if overlap.None? {
      return 0, Eof;
    }
    var end := overlap.value.end;
    assert overlap.value.start == off;
    var len := end - off;
    assert Copied(source, off, p.Length) == source[off..end];
    n, err := ReadBlocks(source, bsize, p, off, end, trouble);
    SliceHead(source, off, len, n);
  }

  /** Read the joined slices: directly when there is one, else through a concatenation. */
  method ReadJoined(slices: seq<Object>, p: array<Byte>, len: nat, boff: nat) returns (n: nat, err: Error)
    requires slices != [] && 0 < len <= p.Length && boff + len <= |Flat(slices)|
    modifies p
    ensures n <= len && p[..n] == Flat(slices)[boff..boff + n]
    ensures err == NoError ==> n == len
    ensures (forall slice | slice in slices :: slice.trouble.None?) ==> err == NoError
    ensures p[len..] == old(p[len..])
  {
    ghost var flat := Flat(slices);
    if |slices| > 1 {
      var parts, size := Build(slices);
      assert Copied(flat, boff, len) == flat[boff..boff + len];
      n, err := Concat.ReadAt(parts, size, p, len, boff, flat);
      SliceHead(flat, boff, len, n);
    } else {
      assert slices == [slices[0]] && slices[1..] == [] && flat == slices[0].data;
      assert slices[0] in slices;
      n, err := Fetch(Item(slices[0], 0, len, boff), p, boff, flat);
    }
  }

  /** Read `off..end` through the blocks that hold it. */
  method ReadBlocks(source: Bytes, bsize: nat, p: array<Byte>, off: nat, end: nat, trouble: nat -> Option<(nat, bool)>)
    returns (n: nat, err: Error)
    requires bsize > 0 && off < end <= |source| && end - off <= p.Length
    modifies p
    ensures n <= end - off && p[..n] == source[off..off + n]
    ensures err == NoError ==> n == end - off
    ensures (forall b :: trouble(b).None?) ==> err == NoError
    ensures p[end - off..] == old(p[end - off..])
  {
    var bstart, boff, bend := off / bsize, off % bsize, end / bsize;
    Window(source, off, end, bsize);
    var slices := Slices(source, bsize, bstart, bend, trouble);
    ghost var flat := Flat(slices);
    assert flat[boff..boff + (end - off)] == source[off..end];
    n, err := ReadJoined(slices, p, end - off, boff);
    SliceHead(flat, boff, end - off, n);
    SliceHead(source, off, end - off, n);
  }
}
