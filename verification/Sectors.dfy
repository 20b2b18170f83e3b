/** Sector arithmetic (pkg/iso9660/ioutil.go, pkg/iso9660/sectorallocator.go). */
module Sectors {
  import opened Prelude

  /** A logical block address: Go's uint32. */
  type Lba = x: nat | x < 0x1_0000_0000

  const SECTOR := 2048

  /** What is left of a number stored in a uint32. */
  function Wrap32(n: nat): Uint32 { n % 0x1_0000_0000 }

  function SectorsToBytes(sectors: nat): nat { 2048 * sectors }

  /** `bytesToSectors`: zero bytes take one sector. */
  function BytesToSectors(bytes: Uint32): (r: Uint32)
    ensures r >= 1 && SectorsToBytes(r - 1) <= bytes <= SectorsToBytes(r)
    ensures (bytes > 0 ==> SectorsToBytes(r - 1) < bytes)
  {
    var sectors := bytes / 2048;
    if bytes % 2048 != 0 || sectors == 0 then sectors + 1 else sectors
  }

  function Zeros(n: nat): (r: Bytes)
    ensures |r| == n
  {
    seq(n, _ => 0)
  }

  /** How many bytes `padOutSector` adds after `written` bytes. */
  function PadLen(written: nat): (r: nat)
    ensures (written + r) % 2048 == 0 && r < SECTOR
  {
    if written % 2048 == 0 then 0 else SECTOR - written % 2048
  }

  function Padded(b: Bytes): (r: Bytes)
    ensures |r| % 2048 == 0 && b <= r
  {
    b + Zeros(PadLen(|b|))
  }

  /** Padding out after whole sectors pads what follows them. */
  lemma PadAfter(w: Bytes, b: Bytes)
    requires |w| % 2048 == 0
    ensures w + b + Zeros(PadLen(|w + b|)) == w + Padded(b)
  {
    assert PadLen(|w + b|) == PadLen(|b|);
  }

  // ----- pieces one after the other -----

  function Flatten(pieces: seq<Bytes>): Bytes {
    if pieces == [] then [] else Flatten(pieces[..|pieces| - 1]) + pieces[|pieces| - 1]
  }

  ghost predicate SectorSized(pieces: seq<Bytes>) { forall i | 0 <= i < |pieces| :: |pieces[i]| == SECTOR }

  lemma {:induction false} FlattenSize(pieces: seq<Bytes>)
    requires SectorSized(pieces)
    ensures |Flatten(pieces)| == SectorsToBytes(|pieces|) && |Flatten(pieces)| % 2048 == 0
  {
    if pieces != [] { FlattenSize(pieces[..|pieces| - 1]); }
  }

  lemma {:induction false} FlattenAt(pieces: seq<Bytes>, i: nat)
    requires SectorSized(pieces) && i < |pieces|
    ensures |Flatten(pieces)| == SectorsToBytes(|pieces|)
    ensures Flatten(pieces)[SectorsToBytes(i)..SectorsToBytes(i) + SECTOR] == pieces[i]
  {
    var last := |pieces| - 1;
    FlattenSize(pieces);
    FlattenSize(pieces[..last]);
    if i < last {
      FlattenAt(pieces[..last], i);
      InFront(Flatten(pieces[..last]), pieces[last], SectorsToBytes(i), SectorsToBytes(i) + SECTOR);
    } else {
      InBack(Flatten(pieces[..last]), pieces[last]);
    }
  }

  lemma FlattenSnoc(pieces: seq<Bytes>, i: nat)
    requires i < |pieces|
    ensures Flatten(pieces[..i + 1]) == Flatten(pieces[..i]) + pieces[i]
  {
    Snoc(pieces, i);
  }

  /** `image` lies in `iso` from byte `at` on. */
  ghost predicate LiesAt(iso: Bytes, at: nat, image: Bytes) {
    at + |image| <= |iso| && iso[at..at + |image|] == image
  }

  lemma LiesOn(w: Bytes, r: Bytes, at: nat, part: Bytes)
    requires LiesAt(w, at, part) && w <= r
    ensures LiesAt(r, at, part) == true
  {
    assert r[at..at + |part|] == w[at..at + |part|];
  }

  lemma PartLies(iso: Bytes, at: nat, image: Bytes, off: nat, len: nat)
    requires LiesAt(iso, at, image) && off + len <= |image|
    ensures LiesAt(iso, at + off, image[off..off + len])
  {
    Within(iso, at, at + |image|, off, off + len);
  }

  lemma PieceLies(iso: Bytes, start: nat, pieces: seq<Bytes>, i: nat)
    requires LiesAt(iso, SectorsToBytes(start), Flatten(pieces)) && SectorSized(pieces) && i < |pieces|
    ensures LiesAt(iso, SectorsToBytes(start + i), pieces[i])
  {
    FlattenAt(pieces, i);
    PartLies(iso, SectorsToBytes(start), Flatten(pieces), SectorsToBytes(i), SECTOR);
  }

  /** Below block 2^21 a byte address fits in a uint32. */
  lemma LowAddress(block: nat, off: nat)
    requires block < 0x20_0000 && off < 2048
    ensures Wrap32(block) == block && Wrap32(2048 * Wrap32(block) + off) == SectorsToBytes(block) + off
  {
  }

  class SectorAllocator {
    var next: Lba

    constructor ()
      ensures next == 0
    {
      next := 0;
    }

    /** Gives out the sectors for `numBytes` bytes. */
    method Alloc(numBytes: Uint32) returns (r: Lba)
      modifies this
      ensures r == old(next) && next == Wrap32(old(next) + BytesToSectors(numBytes))
    {
      r := next;
      next := Wrap32(next + BytesToSectors(numBytes));
    }
  }
}
