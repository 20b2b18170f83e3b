/** Where everything on a volume goes, given only its lengths (`assignLogicalBlockAddresses`,
  pkg/iso9660/volume.go). */
module Placement {
  import opened Prelude
  import opened Sectors
  import opened Inode

  /** The bytes of a directory, and the sectors of its continuation area. */
  datatype DirPlan = DirPlan(bytes: nat, cont: nat)

  /** The bytes of the path table, the directories in visiting order, the sizes of the files in theirs. */
  datatype Plan = Plan(paths: nat, dirs: seq<DirPlan>, files: seq<nat>)

  function DirWidth(d: DirPlan): nat { SectorsFor(d.bytes) + d.cont }

  /** Sixteen sectors, two volume descriptors, two path tables. */
  function FirstDir(plan: Plan): nat { 18 + 2 * SectorsFor(plan.paths) }

  function DirStart(plan: Plan, d: nat): nat
    requires d <= |plan.dirs|
  {
    if d == 0 then FirstDir(plan) else DirStart(plan, d - 1) + DirWidth(plan.dirs[d - 1])
  }

  function FileStart(plan: Plan, f: nat): nat
    requires f <= |plan.files|
  {
    if f == 0 then DirStart(plan, |plan.dirs|) else FileStart(plan, f - 1) + SectorsFor(plan.files[f - 1])
  }

  /** The volume has fewer than 2^32 sectors, and nothing that is sized by a uint32 outgrows one. */
  ghost predicate Fits(plan: Plan) {
    0 < plan.paths < 0x1_0000_0000 && FileStart(plan, |plan.files|) < 0x1_0000_0000
    && forall d | 0 <= d < |plan.dirs| :: DirFits(plan.dirs[d])
  }

  ghost predicate DirFits(d: DirPlan) { 0 < d.bytes <= 0xFFFF_F800 && d.cont < 0x20_0000 }

  lemma {:induction false} DirStartUp(plan: Plan, i: nat, j: nat)
    requires i <= j <= |plan.dirs|
    ensures DirStart(plan, i) <= DirStart(plan, j)
  {
    if i < j { DirStartUp(plan, i, j - 1); }
  }

  lemma {:induction false} FileStartUp(plan: Plan, i: nat, j: nat)
    requires i <= j <= |plan.files|
    ensures FileStart(plan, i) <= FileStart(plan, j)
  {
    if i < j { FileStartUp(plan, i, j - 1); }
  }

  /** Nothing starts past the last block address. */
  lemma StartsFitIn(plan: Plan)
    requires Fits(plan)
    ensures forall d | 0 <= d <= |plan.dirs| :: DirStart(plan, d) < 0x1_0000_0000
    ensures forall f | 0 <= f <= |plan.files| :: FileStart(plan, f) < 0x1_0000_0000
  {
    FileStartUp(plan, 0, |plan.files|);
    forall d | 0 <= d <= |plan.dirs| ensures DirStart(plan, d) < 0x1_0000_0000 {
      DirStartUp(plan, d, |plan.dirs|);
    }
    forall f | 0 <= f <= |plan.files| ensures FileStart(plan, f) < 0x1_0000_0000 {
      FileStartUp(plan, f, |plan.files|);
    }
  }

  lemma SectorsAlike(n: nat)
    requires n < 0x1_0000_0000
    ensures BytesToSectors(n) == SectorsFor(n)
  {
  }

  /** A directory padded out takes the same sectors. */
  lemma PaddedAlike(n: nat)
    requires 0 < n <= 0xFFFF_F800
    ensures 2048 * SectorsFor(n) <= 0xFFFF_F800 && BytesToSectors(2048 * SectorsFor(n)) == SectorsFor(n)
  {
  }

  /** An allocation that does not wrap around. */
  method Take(alloc: SectorAllocator, bytes: Uint32) returns (start: Lba)
    requires alloc.next + SectorsFor(bytes) < 0x1_0000_0000
    modifies alloc
    ensures start == old(alloc.next) && alloc.next == old(alloc.next) + SectorsFor(bytes)
  {
    SectorsAlike(bytes);
    start := alloc.Alloc(bytes);
  }

  /** Allocates a directory of `dsize` bytes and its continuation area of `clen` bytes, if there is one. */
  method AllocDir(alloc: SectorAllocator, dsize: Uint32, clen: nat, ghost p: DirPlan) returns (start: Lba)
    requires DirFits(p) == true && dsize == 2048 * SectorsFor(p.bytes) && clen == 2048 * p.cont
    requires alloc.next + DirWidth(p) < 0x1_0000_0000
    modifies alloc
    ensures start == old(alloc.next) && alloc.next == old(alloc.next) + DirWidth(p)
  {
    PaddedAlike(p.bytes);
    SectorsAlike(dsize);
    start := Take(alloc, dsize);
    if clen > 0 {
      var at := Take(alloc, Wrap32(clen));
    }
  }

  /** Allocates the parts of a file one by one. */
  method AllocFile(alloc: SectorAllocator, size: nat) returns (start: Lba)
    requires alloc.next + SectorsFor(size) < 0x1_0000_0000
    modifies alloc
    ensures start == old(alloc.next) && alloc.next == old(alloc.next) + SectorsFor(size)
  {
    var sizes := PartSizes(size);
    PartSectors(size);
    start := alloc.Alloc(sizes[0]);
    assert sizes[0..] == sizes;
    for i := 1 to |sizes|
      invariant alloc.next + SectorSum(sizes[i..]) == start + SectorSum(sizes)
    {
      var at := alloc.Alloc(sizes[i]);
      assert sizes[i..][1..] == sizes[i + 1..];
    }
  }

  /** The fixed areas before the directories. */
  method AllocFixed(alloc: SectorAllocator, paths: Uint32) returns (lTable: Lba, mTable: Lba)
    requires alloc.next == 0 && 18 + 2 * SectorsFor(paths) < 0x1_0000_0000
    modifies alloc
    ensures lTable == 18 && mTable == 18 + SectorsFor(paths) && alloc.next == 18 + 2 * SectorsFor(paths)
  {
    var system := Take(alloc, 16 * 2048);
    var pvd := Take(alloc, 2048);
    var terminator := Take(alloc, 2048);
    lTable := Take(alloc, paths);
    mTable := Take(alloc, paths);
  }

  /** Writes a directory extent and its continuation area, padding out after each. */
  method Padding(w: Bytes, extent: Bytes, image: Bytes, ghost p: DirPlan) returns (r: Bytes)
    requires |w| % 2048 == 0 && |extent| == p.bytes > 0 && |image| == 2048 * p.cont
    ensures r == w + (Padded(extent) + image) && |r| == |w| + 2048 * DirWidth(p)
  {
    PadAfter(w, extent);
    r := w + extent;
    r := r + Zeros(PadLen(|r|));
    if |image| > 0 {
      r := r + image;
    }
    Assoc(w, Padded(extent), image);
    assert PadLen(|r|) == 0;
    r := r + Zeros(PadLen(|r|));
  }

  lemma WholeSectors(n: nat)
    ensures (2048 * n) % 2048 == 0 && SectorsToBytes(n) == 2048 * n
  {
  }
}
