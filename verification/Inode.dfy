/** Inode parts: a file in pieces of at most 2^32 - 2048 bytes (pkg/iso9660/inode.go), and
  the builder's own sector count (pkg/vdisc/builder.go). */
module Inode {
  import opened Prelude
  import opened Sectors

  const MAX_PART := 0xFFFF_F800

  datatype Part = Part(start: Lba, size: Uint32)

  /** The sizes of the parts. */
  function PartSizes(size: nat): (r: seq<Uint32>)
    ensures r != []
  {
    if size > 0xFFFF_F800 then [0xFFFF_F800] + PartSizes(size - 0xFFFF_F800) else [size]
  }

  function Sum(sizes: seq<Uint32>): nat {
    if sizes == [] then 0 else sizes[0] + Sum(sizes[1..])
  }

  /** The sectors all parts take. */
  function SectorSum(sizes: seq<Uint32>): nat {
    if sizes == [] then 0 else BytesToSectors(sizes[0]) + SectorSum(sizes[1..])
  }

  /** One sector for nothing, else as many as it takes. */
  function SectorsFor(size: nat): nat {
    if size == 0 then 1 else (size + 2047) / 2048
  }

  /** The builder's `bytesToSectors` on an int64, cut down to a uint32. */
  function BuilderSectors(size: nat): Uint32 {
    var sectors := Wrap32(size / 2048);
    if size % 2048 != 0 || sectors == 0 then Wrap32(sectors + 1) else sectors
  }

  /** Parts of the given sizes, one after the other from `start` on. */
  function PartsFrom(start: nat, sizes: seq<Uint32>): (r: seq<Part>)
    ensures |r| == |sizes|
    decreases |sizes|
  {
    if sizes == [] then []
    else [Part(Wrap32(start), sizes[0])] + PartsFrom(start + BytesToSectors(sizes[0]), sizes[1..])
  }

  /** `InodeParts`; an error stands for its overflow panic. */
  method InodeParts(start: Lba, size: nat) returns (r: Result<seq<Part>>)
    ensures r.Ok? <==> StartsFit(start, PartSizes(size))
    ensures r.Ok? ==> r.value == PartsFrom(start, PartSizes(size))
  {
    var parts: seq<Part> := [];
    var remaining: nat, at: Lba := size, start;
    PartsNone(start, size);
    while true
      invariant Divided(start, size, at, remaining, parts) == true
      decreases remaining
    {
      var sz: Uint32 := if remaining > MAX_PART then MAX_PART else remaining;
      DividedNext(start, size, at, remaining, parts);
      remaining := remaining - sz;
      if remaining == 0 {
        return Ok(parts + [Part(at, sz)]);
      }
      var lba := Wrap32(at + BytesToSectors(sz));
      if lba <= at {
        return Err;
      }
      parts, at := parts + [Part(at, sz)], lba;
    }
  }

  /** The inode is `parts`, and then what is left from `at` on. (Only unfolded where `Unfold(true)` is asserted.) */
  ghost predicate Divided(start: Lba, size: nat, at: Lba, remaining: nat, parts: seq<Part>) {
    forall u {:trigger Unfold(u)} :: Unfold(u) ==>
      (StartsFit(start, PartSizes(size)) <==> StartsFit(at, PartSizes(remaining)))
      && PartsFrom(start, PartSizes(size)) == parts + PartsFrom(at, PartSizes(remaining))
  }

  lemma PartsNone(start: Lba, size: nat)
    ensures Divided(start, size, start, size, []) == true
  {
    assert [] + PartsFrom(start, PartSizes(size)) == PartsFrom(start, PartSizes(size));
  }

  lemma DividedNext(start: Lba, size: nat, at: Lba, remaining: nat, parts: seq<Part>)
    requires Divided(start, size, at, remaining, parts) == true
    ensures remaining <= MAX_PART ==>
      StartsFit(start, PartSizes(size)) && PartsFrom(start, PartSizes(size)) == parts + [Part(at, remaining)]
    ensures remaining > MAX_PART ==> var lba := Wrap32(at + BytesToSectors(MAX_PART));
      if lba <= at then !StartsFit(start, PartSizes(size))
      else Divided(start, size, lba, remaining - MAX_PART, parts + [Part(at, MAX_PART)]) == true
  {
    assert Unfold(true);
    if remaining <= MAX_PART {
      assert PartsFrom(at, [remaining]) == [Part(at, remaining)];
    } else {
      var lba := Wrap32(at + BytesToSectors(MAX_PART));
      var sizes := PartSizes(remaining);
      assert sizes[0] == MAX_PART && sizes[1..] == PartSizes(remaining - MAX_PART) && |sizes| > 1;
      assert StartsFit(at, sizes) <==> StartsFit(at + BytesToSectors(sizes[0]), sizes[1..]);
      assert lba > at <==> at + BytesToSectors(MAX_PART) < 0x1_0000_0000;
      Assoc(parts, [Part(at, MAX_PART)], PartsFrom(lba, PartSizes(remaining - MAX_PART)));
    }
  }

  /** Each part starts where the one before ends. */
  lemma {:induction false} PartsContiguous(start: nat, sizes: seq<Uint32>, i: nat)
    requires StartsFit(start, sizes) && i < |sizes|
    ensures var parts := PartsFrom(start, sizes);
      parts[0].start == start && parts[i].size == sizes[i]
      && (i + 1 < |sizes| ==> parts[i + 1].start == parts[i].start + BytesToSectors(sizes[i]))
    decreases |sizes|
  {
    if |sizes| > 1 {
      PartsContiguous(start + BytesToSectors(sizes[0]), sizes[1..], if i == 0 then 0 else i - 1);
    }
  }

  /** No part starts past the last block address. */
  ghost predicate StartsFit(start: nat, sizes: seq<Uint32>)
    decreases |sizes|
  {
    start < 0x1_0000_0000 && (|sizes| > 1 ==> StartsFit(start + BytesToSectors(sizes[0]), sizes[1..]))
  }

  /** Sizes add up; every part but the last is as large as can be and sector-aligned. */
  lemma {:induction false} PartSizesSum(size: nat)
    ensures Sum(PartSizes(size)) == size
    ensures forall i | 0 <= i < |PartSizes(size)| - 1 :: PartSizes(size)[i] == MAX_PART
  {
    if size > MAX_PART {
      PartSizesSum(size - MAX_PART);
      assert PartSizes(size)[1..] == PartSizes(size - MAX_PART);
    }
  }

  /** The sectors of the parts add up to those of the file. */
  lemma {:induction false} PartSectors(size: nat)
    ensures SectorSum(PartSizes(size)) == SectorsFor(size)
  {
    if size > MAX_PART {
      PartSectors(size - MAX_PART);
      assert PartSizes(size)[1..] == PartSizes(size - MAX_PART);
    } else {
      assert PartSizes(size)[1..] == [];
    }
  }

  /** The two packages count alike, for every size below 2^32 sectors. */
  lemma {:induction false} SectorCountsAgree(size: nat)
    requires SectorsFor(size) < 0x1_0000_0000
    ensures BuilderSectors(size) == SectorSum(PartSizes(size)) == SectorsFor(size)
  {
    PartSectors(size);
    SectorsForIs(size);
  }

  lemma SectorsForIs(size: nat)
    ensures SectorsFor(size) == if size % 2048 != 0 || size / 2048 == 0 then size / 2048 + 1 else size / 2048
  {
  }

  /** The inode allocator: numbers from 1 on, until they are used up. */
  class InodeAllocator {
    var next: Uint32
    var exhausted: bool
    /** How many numbers were given out. */
    ghost var given: nat

    ghost predicate Valid()
      reads this
    {
      given <= 0xFFFF_FFFF && exhausted == (given == 0xFFFF_FFFF) && next == Wrap32(given + 1)
    }

    constructor ()
      ensures Valid() && given == 0
    {
      next, exhausted, given := 1, false, 0;
    }

    /** Never the same number twice, and never zero. */
    method Next() returns (r: Result<Uint32>)
      requires Valid()
      modifies this
      ensures Valid()
      ensures r.Ok? <==> old(given) < 0xFFFF_FFFF
      ensures if r.Ok? then r.value == given == old(given) + 1 else given == old(given)
    {
      if exhausted {
        return Err;
      }
      var num := next;
      next := Wrap32(next + 1);
      exhausted := next == 0;
      given := given + 1;
      r := Ok(num);
    }
  }
}
