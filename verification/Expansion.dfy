/** Reading a record's system-use entries back through its continuations (pkg/iso9660/walk.go). */
module Expansion {
  import opened Prelude
  import opened Sectors
  import opened Susp
  import opened Continuation

  /** The bytes a CE points to, addressed in uint32 arithmetic and cut off at the end of the image. */
  function Pointed(iso: Bytes, ce: Entry): Bytes
    requires ce.CE?
  {
    Copied(iso, Wrap32(2048 * ce.start + ce.off), ce.len)
  }

  /** How a CE is followed. */
  type Reader = Entry -> Result<seq<Entry>>

  function ReaderOf(iso: Bytes): Reader {
    (e: Entry) => if e.CE? then Decode(Pointed(iso, e)) else Err
  }

  /** The worklist is used up within `fuel` steps, or a continuation cannot be decoded. */
  ghost predicate Ends(read: Reader, todo: seq<Entry>, fuel: nat)
    decreases fuel
  {
    todo == [] || (fuel > 0 &&
      if todo[0].CE? then
        var more := read(todo[0]);
        more.Ok? ==> Ends(read, todo[1..] + more.value, fuel - 1)
      else Ends(read, todo[1..], fuel - 1))
  }

  /** The entries with every CE replaced by what it points to, appended at the end. */
  ghost function Expand(read: Reader, todo: seq<Entry>, fuel: nat): Result<seq<Entry>>
    requires Ends(read, todo, fuel)
    decreases fuel
  {
    if todo == [] then Ok([])
    else if todo[0].CE? then
      var more := read(todo[0]);
      if more.Err? then Err else Expand(read, todo[1..] + more.value, fuel - 1)
    else Prepend([todo[0]], Expand(read, todo[1..], fuel - 1))
  }

  /** More fuel changes nothing. */
  lemma {:induction false} FuelIrrelevant(read: Reader, todo: seq<Entry>, f: nat, g: nat)
    requires Ends(read, todo, f) && Ends(read, todo, g)
    ensures Expand(read, todo, f) == Expand(read, todo, g)
    decreases f
  {
    if todo != [] {
      if todo[0].CE? {
        var more := read(todo[0]);
        if more.Ok? { FuelIrrelevant(read, todo[1..] + more.value, f - 1, g - 1); }
      } else {
        FuelIrrelevant(read, todo[1..], f - 1, g - 1);
      }
    }
  }

  /** The worklist comes to its end and yields `es`. */
  ghost predicate ExpandsBy(read: Reader, todo: seq<Entry>, es: seq<Entry>) {
    exists fuel: nat :: Ends(read, todo, fuel) && Expand(read, todo, fuel) == Ok(es)
  }

  ghost predicate ExpandsTo(iso: Bytes, todo: seq<Entry>, es: seq<Entry>) { ExpandsBy(ReaderOf(iso), todo, es) }

  /** `allSystemUseEntries`, for lists on which its loop ends. */
  method AllSystemUseEntries(iso: Bytes, entries: seq<Entry>) returns (r: Result<seq<Entry>>)
    requires exists fuel: nat :: Ends(ReaderOf(iso), entries, fuel)
    ensures forall fuel: nat | Ends(ReaderOf(iso), entries, fuel) :: r == Expand(ReaderOf(iso), entries, fuel)
    ensures forall es | ExpandsTo(iso, entries, es) :: r == Ok(es)
  {
    ghost var read := ReaderOf(iso);
    ghost var fuel: nat :| Ends(read, entries, fuel);
    ghost var whole := Expand(read, entries, fuel);
    forall f: nat | Ends(read, entries, f) ensures whole == Expand(read, entries, f) {
      FuelIrrelevant(read, entries, f, fuel);
    }
    var unconsumed := entries;
    var systemUse: seq<Entry> := [];
    PrependEmpty(whole);
    while |unconsumed| > 0
      invariant Ends(read, unconsumed, fuel)
      invariant whole == Prepend(systemUse, Expand(read, unconsumed, fuel))
      decreases fuel
    {
      var entry := unconsumed[0];
      unconsumed := unconsumed[1..];
      if entry.CE? {
        var more := DecodeSystemUseEntries(Pointed(iso, entry));
        assert more == read(entry);
        if more.Err? {
          return Err;
        }
        unconsumed := unconsumed + more.value;
      } else {
        PrependTwice(systemUse, [entry], Expand(read, unconsumed, fuel - 1));
        systemUse := systemUse + [entry];
      }
      fuel := fuel - 1;
    }
    assert systemUse + [] == systemUse;
    r := Ok(systemUse);
  }

  // ----- reading what was written -----

  ghost predicate Plain(es: seq<Entry>) { forall e | e in es :: !e.CE? }

  /** The image holds the continuation area at its start. */
  ghost predicate Holds(iso: Bytes, start: Lba, sectors: seq<Sector>)
    requires AreaOk(sectors)
  {
    LiesAt(iso, SectorsToBytes(start), Image(sectors))
  }

  lemma RunInSector(s: Sector, from: nat, to: nat)
    requires SectorOk(s) && from <= to <= |s.entries|
    ensures var off, len := Total(s.entries[..from]), Total(s.entries[from..to]);
      off + len <= SECTOR == |SectorBytes(s)| && SectorBytes(s)[off..off + len] == EncodeAll(s.entries[from..to])
  {
    SectorSize(s);
    RunBytes(s.entries, from, to);
    InFront(EncodeAll(s.entries), Zeros(PadLen(|EncodeAll(s.entries)|)), Total(s.entries[..from]),
      Total(s.entries[..from]) + Total(s.entries[from..to]));
  }

  lemma SectorLies(iso: Bytes, start: Lba, sectors: seq<Sector>, i: nat)
    requires AreaOk(sectors) && Holds(iso, start, sectors) && i < |sectors|
    ensures LiesAt(iso, SectorsToBytes(start + i), SectorBytes(sectors[i])) == true
  {
    BlocksSized(sectors);
    PieceLies(iso, start, Blocks(sectors), i);
  }

  lemma PointedRun(iso: Bytes, block: nat, s: Sector, from: nat, to: nat, ce: Entry)
    requires SectorOk(s) && from < to <= |s.entries| && block < 0x20_0000
    requires LiesAt(iso, SectorsToBytes(block), SectorBytes(s))
    requires ce.CE? && ce.start == Wrap32(block) && ce.off == Total(s.entries[..from])
    requires ce.len == Total(s.entries[from..to])
    ensures Pointed(iso, ce) == EncodeAll(s.entries[from..to])
  {
    RunInSector(s, from, to);
    RunPositive(s.entries[from..to]);
    PointedPart(iso, block, SectorBytes(s), ce);
  }

  /** A CE that describes a run reads it back, as long as the area lies below block 2^21. */
  lemma ReadRun(iso: Bytes, start: Lba, sectors: seq<Sector>, ce: Entry, p: Span)
    requires AreaOk(sectors) && Holds(iso, start, sectors) && start + |sectors| <= 0x20_0000
    requires Describes(start, sectors, ce, p)
    ensures ReaderOf(iso)(ce) == Ok(RunOf(sectors, p))
  {
    SectorLies(iso, start, sectors, p.sector);
    assert SectorOk(sectors[p.sector]) == true;
    PointedRun(iso, start + p.sector, sectors[p.sector], p.from, p.to, ce);
    RoundTrip(RunOf(sectors, p));
  }

  lemma PointedPart(iso: Bytes, block: nat, image: Bytes, ce: Entry)
    requires block < 0x20_0000 && LiesAt(iso, SectorsToBytes(block), image) && |image| == 2048
    requires ce.CE? && ce.start == Wrap32(block) && ce.len > 0 && ce.off + ce.len <= 2048
    ensures Pointed(iso, ce) == image[ce.off..ce.off + ce.len]
  {
    LowAddress(block, ce.off);
    CopiedPart(iso, SectorsToBytes(block), image, ce.off, ce.len);
  }

  lemma CopiedPart(iso: Bytes, at: nat, image: Bytes, off: nat, len: nat)
    requires LiesAt(iso, at, image) && off + len <= |image| && len > 0
    ensures Copied(iso, at + off, len) == image[off..off + len]
  {
    PartLies(iso, at, image, off, len);
    assert |image[off..off + len]| == len;
  }

  lemma RunPositive(run: seq<Entry>)
    requires run != [] && AllValid(run)
    ensures Total(run) > 0
  {
    TotalHead(run);
    EncodeLen(run[0]);
    Monotone(run, 1, |run|);
    assert run[..|run|] == run;
  }

  /** Leading entries that are not CEs come out first. */
  lemma {:induction false} PlainFirst(read: Reader, plain: seq<Entry>, todo: seq<Entry>, fuel: nat)
    requires Plain(plain) && Ends(read, todo, fuel)
    ensures Ends(read, plain + todo, |plain| + fuel)
    ensures Expand(read, plain + todo, |plain| + fuel) == Prepend(plain, Expand(read, todo, fuel))
  {
    if plain == [] {
      assert plain + todo == todo;
      PrependEmpty(Expand(read, todo, fuel));
    } else {
      PlainFirst(read, plain[1..], todo, fuel);
      assert (plain + todo)[1..] == plain[1..] + todo;
      assert plain[0] in plain && [plain[0]] + plain[1..] == plain;
      PrependTwice([plain[0]], plain[1..], Expand(read, todo, fuel));
    }
  }

  /** Following a CE that describes a run yields the run. */
  ghost predicate Readable(read: Reader, start: Lba, sectors: seq<Sector>) {
    forall ce, p {:trigger Describes(start, sectors, ce, p)} :: Describes(start, sectors, ce, p) ==>
      read(ce) == Ok(RunOf(sectors, p))
  }

  lemma ImageReadable(iso: Bytes, start: Lba, sectors: seq<Sector>)
    requires AreaOk(sectors) && Holds(iso, start, sectors) && start + |sectors| <= 0x20_0000
    ensures Readable(ReaderOf(iso), start, sectors) == true
  {
    forall ce, p | Describes(start, sectors, ce, p) ensures ReaderOf(iso)(ce) == Ok(RunOf(sectors, p)) {
      ReadRun(iso, start, sectors, ce, p);
    }
  }

  /** A list that ends in a CE comes out as the list and what the CE leads to. */
  lemma {:induction false} ChainExpands(read: Reader, start: Lba, sectors: seq<Sector>, plain: seq<Entry>, ce: Entry,
      trail: Trail, es: seq<Entry>)
    requires Readable(read, start, sectors) == true
    requires Plain(plain) && Plain(es) && Chain(start, sectors, ce, trail, es) == true
    ensures ExpandsBy(read, plain + [ce], plain + es) == true
    decreases trail
  {
    var run := ChainLink(start, sectors, ce, trail, es);
    if trail.End? {
      PlainExpands(read, es);
    } else {
      var k := |run| - 1;
      ChainExpands(read, start, sectors, es[..k], run[k], trail.rest, es[k..]);
      assert es[..k] + es[k..] == es;
    }
    CeLast(read, plain, ce, run, es);
  }

  /** One link of a chain. */
  lemma ChainLink(start: Lba, sectors: seq<Sector>, ce: Entry, trail: Trail, es: seq<Entry>) returns (run: seq<Entry>)
    requires Chain(start, sectors, ce, trail, es)
    ensures Describes(start, sectors, ce, trail.span) && run == RunOf(sectors, trail.span)
    ensures trail.End? ==> run == es
    ensures trail.On? ==> var k := |run| - 1;
      k < |es| && run == es[..k] + [run[k]] && Chain(start, sectors, run[k], trail.rest, es[k..])
  {
    assert Unfold(true);
    run := RunOf(sectors, trail.span);
    assert run == run[..|run| - 1] + [run[|run| - 1]];
  }

  lemma CeLast(read: Reader, plain: seq<Entry>, ce: Entry, run: seq<Entry>, es: seq<Entry>)
    requires Plain(plain) && ce.CE? && read(ce) == Ok(run) && ExpandsBy(read, run, es) == true
    ensures ExpandsBy(read, plain + [ce], plain + es) == true
  {
    var f: nat :| Ends(read, run, f) && Expand(read, run, f) == Ok(es);
    assert [ce][1..] + run == run;
    assert Ends(read, [ce], f + 1);
    PlainFirst(read, plain, [ce], f + 1);
  }

  lemma PlainExpands(read: Reader, es: seq<Entry>)
    requires Plain(es)
    ensures ExpandsBy(read, es, es) == true
  {
    PlainFirst(read, es, [], 0);
    assert es + [] == es;
  }
}
