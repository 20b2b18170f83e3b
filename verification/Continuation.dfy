/** Continuation areas: overflowing system-use entries packed into whole sectors and
  chained by CE entries (pkg/iso9660/continuation.go), and the expansion that reads
  them back (pkg/iso9660/walk.go). */
module Continuation {
  import opened Prelude
  import opened Sectors
  import opened Susp

  type Room = x: nat | x <= SECTOR

  datatype Sector = Sector(room: Room, entries: seq<Entry>)

  const FRESH := Sector(SECTOR, [])

  /** The bytes that the first `n` entries take. */
  function Sum(es: seq<Entry>, n: nat): nat
    requires n <= |es|
  {
    if n == 0 then 0 else Sum(es, n - 1) + Len(es[n - 1])
  }

  function Total(es: seq<Entry>): nat { Sum(es, |es|) }

  lemma {:induction false} SumPrefix(es: seq<Entry>, n: nat, k: nat)
    requires k <= n <= |es|
    ensures Sum(es[..n], k) == Sum(es, k)
  {
    if k > 0 { SumPrefix(es, n, k - 1); }
  }

  lemma {:induction false} SumJoin(a: seq<Entry>, b: seq<Entry>, n: nat)
    requires n <= |b|
    ensures Sum(a + b, |a| + n) == Total(a) + Sum(b, n)
  {
    if n == 0 {
      SumPrefix(a + b, |a|, |a|);
      assert (a + b)[..|a|] == a;
    } else {
      SumJoin(a, b, n - 1);
    }
  }

  lemma TotalJoin(a: seq<Entry>, b: seq<Entry>)
    ensures Total(a + b) == Total(a) + Total(b)
  {
    SumJoin(a, b, |b|);
  }

  /** How many of the entries stay when at least one must go: with them, a CE fits in `room`. */
  function KeptBelow(room: nat, es: seq<Entry>, k: nat): (r: nat)
    requires k <= |es|
    ensures r <= k
    ensures r > 0 ==> Total(es[..r]) + CE_LENGTH <= room
    ensures r < k ==> Total(es[..r + 1]) + CE_LENGTH > room
  {
    if k == 0 || Total(es[..k]) + CE_LENGTH <= room then k else KeptBelow(room, es, k - 1)
  }

  /** How many leading entries go into `room` bytes: all, or as many as leave space for a CE. */
  function Kept(room: nat, es: seq<Entry>): (r: nat)
    ensures r <= |es|
    ensures es != [] ==> (r == |es| <==> Total(es) <= room)
    ensures 0 < r < |es| ==> Total(es[..r]) + CE_LENGTH <= room
  {
    if es == [] || Total(es) <= room then |es| else KeptBelow(room, es, |es| - 1)
  }

  lemma TotalHead(es: seq<Entry>)
    requires es != []
    ensures Total(es[..1]) == Len(es[0])
  {
    assert Sum(es[..1], 0) == 0;
  }

  /** Something fits into a fresh sector. */
  lemma FreshKeeps(es: seq<Entry>)
    requires es != [] && Valid(es[0])
    ensures Kept(SECTOR, es) > 0
  {
    TotalHead(es);
    if |es| == 1 { assert es[..1] == es; }
  }

  /** What is spilled cannot start in the room that is left. */
  lemma SpillOpens(room: nat, es: seq<Entry>)
    requires 0 < Kept(room, es) < |es|
    ensures var k := Kept(room, es); Kept(room - Total(es[..k]) - CE_LENGTH, es[k..]) == 0
  {
    var k := Kept(room, es);
    var left, rest := room - Total(es[..k]) - CE_LENGTH, es[k..];
    assert es[..k] + [es[k]] == es[..k + 1];
    TotalJoin(es[..k], [es[k]]);
    TotalHead(rest);
    assert [es[k]] == rest[..1];
    if |rest| == 1 {
      assert es == es[..k + 1];
    }
    assert Len(es[k]) > left;
    Overfull(left, rest);
  }

  /** Nothing fits if the first entry does not. */
  lemma Overfull(room: nat, es: seq<Entry>)
    requires es != [] && Len(es[0]) > room
    ensures Kept(room, es) == 0
  {
    TotalHead(es);
    Monotone(es, 1, |es|);
    assert es[..|es|] == es;
    var k := Kept(room, es);
    if k > 0 { Monotone(es, 1, k); }
  }

  lemma Monotone(es: seq<Entry>, i: nat, j: nat)
    requires i <= j <= |es|
    ensures Total(es[..i]) <= Total(es[..j])
  {
    TotalJoin(es[..i], es[i..j]);
    assert es[..i] + es[i..j] == es[..j];
  }

  // ----- Append -----

  /** The CE for `len` bytes that start where `room` bytes of the sector are left. */
  function CeAt(start: Lba, sector: nat, room: Room, len: nat): Entry {
    CE(Wrap32(start + sector), SECTOR - room, Wrap32(len))
  }

  /** The sectors with the entries that fit and a CE's room taken. */
  function Reserved(sectors: seq<Sector>, es: seq<Entry>): (r: seq<Sector>)
    requires sectors != [] && 0 < Kept(sectors[|sectors| - 1].room, es) < |es|
    ensures |r| == |sectors| && r[..|r| - 1] == sectors[..|r| - 1]
  {
    var last := |sectors| - 1;
    var s := sectors[last];
    var k := Kept(s.room, es);
    sectors[last := Sector(s.room - (Total(es[..k]) + CE_LENGTH), s.entries + es[..k])]
  }

  function Closed(sectors: seq<Sector>, i: nat, ce: Entry): seq<Sector>
    requires i < |sectors|
  {
    sectors[i := sectors[i].(entries := sectors[i].entries + [ce])]
  }

  /** The sectors after an append, and the CE that leads to the entries. */
  function Appended(start: Lba, sectors: seq<Sector>, es: seq<Entry>): (r: (seq<Sector>, Entry))
    requires es != [] && AllValid(es)
    ensures |r.0| >= |sectors| && r.0 != [] && r.1.CE?
    decreases |es|, if sectors == [] then 2 else if Kept(sectors[|sectors| - 1].room, es) == 0 then 1 else 0
  {
    FreshKeeps(es);
    if sectors == [] then Appended(start, [FRESH], es)
    else
      var last := |sectors| - 1;
      var s := sectors[last];
      var k := Kept(s.room, es);
      if k == 0 then Appended(start, sectors + [FRESH], es)
      else if k == |es| then
        (sectors[last := Sector(s.room - Total(es), s.entries + es)], CeAt(start, last, s.room, Total(es)))
      else
        var next := Appended(start, Reserved(sectors, es), es[k..]);
        (Closed(next.0, last, next.1), CeAt(start, last, s.room, Total(es[..k]) + CE_LENGTH))
  }

  lemma AppendedFresh(start: Lba, sectors: seq<Sector>, es: seq<Entry>)
    requires es != [] && AllValid(es)
    requires sectors != [] ==> Kept(sectors[|sectors| - 1].room, es) == 0
    ensures Appended(start, sectors, es) == Appended(start, sectors + [FRESH], es)
    ensures Kept(FRESH.room, es) > 0
  {
    FreshKeeps(es);
    assert [] + [FRESH] == [FRESH];
  }

  lemma AppendedFits(start: Lba, sectors: seq<Sector>, es: seq<Entry>)
    requires es != [] && AllValid(es)
    requires sectors != [] && Kept(sectors[|sectors| - 1].room, es) == |es|
    ensures var last := |sectors| - 1;
      var s := sectors[last];
      Appended(start, sectors, es)
        == (sectors[last := Sector(s.room - Total(es), s.entries + es)], CeAt(start, last, s.room, Total(es)))
  {
  }

  lemma AppendedSpills(start: Lba, sectors: seq<Sector>, es: seq<Entry>)
    requires es != [] && AllValid(es)
    requires sectors != [] && 0 < Kept(sectors[|sectors| - 1].room, es) < |es|
    ensures var last := |sectors| - 1;
      var k := Kept(sectors[last].room, es);
      var next := Appended(start, Reserved(sectors, es), es[k..]);
      Appended(start, sectors, es)
        == (Closed(next.0, last, next.1), CeAt(start, last, sectors[last].room, Total(es[..k]) + CE_LENGTH))
  {
  }

  method SumLen(entries: seq<Entry>) returns (sum: nat)
    ensures sum == Total(entries)
  {
    sum := 0;
    for i := 0 to |entries|
      invariant sum == Sum(entries, i)
    {
      sum := sum + Len(entries[i]);
    }
  }

  /** Pops entries off the end until the rest fits in `room`, with a CE if any was popped. */
  method Pop(room: nat, entries: seq<Entry>)
    returns (kept: seq<Entry>, overflow: seq<Entry>, baseLen: nat, extraLen: nat)
    ensures |kept| == Kept(room, entries) && kept == entries[..|kept|] && overflow == entries[|kept|..]
    ensures baseLen == Total(kept) && extraLen == if overflow == [] then 0 else CE_LENGTH
  {
    kept, overflow, extraLen := entries, [], 0;
    baseLen := SumLen(entries);
    while |kept| > 0 && baseLen + extraLen > room
      invariant |kept| <= |entries| && kept == entries[..|kept|] && overflow == entries[|kept|..]
      invariant baseLen == Total(kept)
      invariant extraLen == if overflow == [] then 0 else CE_LENGTH
      invariant overflow != [] ==> Kept(room, entries) == KeptBelow(room, entries, |kept|)
      decreases |kept|
    {
      var lastIdx := |kept| - 1;
      var last := kept[lastIdx];
      assert kept[..lastIdx] == entries[..lastIdx];
      SumPrefix(kept, lastIdx, lastIdx);
      assert [last] + overflow == entries[lastIdx..];
      kept, overflow := kept[..lastIdx], [last] + overflow;
      baseLen := baseLen - Len(last);
      extraLen := CE_LENGTH;
    }
  }

  method WriteEntries(w: Bytes, entries: seq<Entry>) returns (r: Bytes)
    requires AllValid(entries)
    ensures r == w + EncodeAll(entries)
  {
    r := w;
    for j := 0 to |entries|
      invariant r == w + EncodeAll(entries[..j])
    {
      ghost var done := EncodeAll(entries[..j]);
      Snoc(entries, j);
      EncodeJoin(entries[..j], [entries[j]]);
      EncodeOne(entries[j]);
      Assoc(w, done, Encode(entries[j]));
      r := r + Encode(entries[j]);
    }
    assert entries[..|entries|] == entries;
  }

  method WriteSector(w: Bytes, s: Sector) returns (r: Bytes)
    requires AllValid(s.entries) && |w| % 2048 == 0
    ensures r == w + SectorBytes(s)
  {
    r := WriteEntries(w, s.entries);
    PadAfter(w, EncodeAll(s.entries));
    r := r + Zeros(PadLen(|r|));
  }

  lemma EncodeOne(e: Entry)
    requires Valid(e)
    ensures EncodeAll([e]) == Encode(e)
  {
    assert [e][1..] == [];
    assert Encode(e) + [] == Encode(e);
  }

  class ContinuationArea {
    const start: Lba
    var sectors: seq<Sector>

    constructor (start: Lba)
      ensures this.start == start && sectors == []
    {
      this.start := start;
      sectors := [];
    }

    /** Files the entries, in as many sectors as it takes; no CE if there are none. */
    method Append(entries: seq<Entry>) returns (r: Option<Entry>)
      requires AllValid(entries)
      modifies this
      ensures entries == [] ==> r == None && sectors == old(sectors)
      ensures entries != [] ==> r.Some? && (sectors, r.value) == Appended(start, old(sectors), entries)
      decreases |entries|, 2
    {
      if |entries| == 0 {
        return None;
      }
      if |sectors| == 0 {
        AppendedFresh(start, sectors, entries);
        sectors := [FRESH];
      }
      r := None;
      while r == None
        invariant sectors != []
        invariant r == None ==> Appended(start, sectors, entries) == Appended(start, old(sectors), entries)
        invariant r != None ==> (sectors, r.value) == Appended(start, old(sectors), entries)
        decreases if r == None then 1 else 0, Kept(sectors[|sectors| - 1].room, entries) == 0
      {
        ghost var before := sectors;
        r := Place(entries);
        if r == None { AppendedFresh(start, before, entries); }
      }
    }

    /** One attempt at the last sector: if nothing fits there, a new one is opened. */
    method Place(entries: seq<Entry>) returns (r: Option<Entry>)
      requires entries != [] && AllValid(entries) && sectors != []
      modifies this
      ensures r == None <==> Kept(old(sectors[|sectors| - 1].room), entries) == 0
      ensures r == None ==> sectors == old(sectors) + [FRESH]
      ensures r != None ==> (sectors, r.value) == Appended(start, old(sectors), entries)
      decreases |entries|, 1
    {
      var kept, overflow, baseLen, extraLen := Pop(sectors[|sectors| - 1].room, entries);
      if |kept| == 0 {
        sectors := sectors + [FRESH];
        return None;
      }
      var ce;
      if |overflow| == 0 {
        assert kept == entries;
        ce := Fill(entries, baseLen);
      } else {
        ce := Spill(entries, |kept|, overflow, baseLen + extraLen);
      }
      r := Some(ce);
    }

    /** Writes the sectors, each padded out. */
    method WriteTo() returns (w: Bytes)
      requires AreaOk(sectors)
      ensures w == Image(sectors) && |w| == SectorsToBytes(|sectors|)
    {
      w := [];
      ghost var blocks := Blocks(sectors);
      BlocksSized(sectors);
      for i := 0 to |sectors|
        invariant w == Flatten(blocks[..i])
      {
        FlattenSize(blocks[..i]);
        FlattenSnoc(blocks, i);
        assert SectorOk(sectors[i]);
        w := WriteSector(w, sectors[i]);
      }
      assert blocks[..|blocks|] == blocks;
      FlattenSize(blocks);
    }

    /** All the entries fit in the last sector. */
    method Fill(entries: seq<Entry>, len: nat) returns (ce: Entry)
      requires entries != [] && AllValid(entries)
      requires sectors != [] && len == Total(entries) && Kept(sectors[|sectors| - 1].room, entries) == |entries|
      modifies this
      ensures (sectors, ce) == Appended(start, old(sectors), entries)
    {
      AppendedFits(start, sectors, entries);
      var lastSector := |sectors| - 1;
      var last := sectors[lastSector];
      ce := CeAt(start, lastSector, last.room, len);
      sectors := sectors[lastSector := Sector(last.room - len, last.entries + entries)];
    }

    /** The first `k` entries and a CE to the others fill the last sector. */
    method Spill(entries: seq<Entry>, k: nat, overflow: seq<Entry>, len: nat) returns (ce: Entry)
      requires AllValid(entries) && 0 < k < |entries| && overflow == entries[k..]
      requires len == Total(entries[..k]) + CE_LENGTH
      requires sectors != [] && Kept(sectors[|sectors| - 1].room, entries) == k
      modifies this
      ensures (sectors, ce) == Appended(start, old(sectors), entries)
      decreases |entries|, 0
    {
      AppendedSpills(start, sectors, entries);
      var lastSector := |sectors| - 1;
      var last := sectors[lastSector];
      ghost var before := sectors;
      sectors := sectors[lastSector := Sector(last.room - len, last.entries + entries[..k])];
      assert sectors == Reserved(before, entries);
      var nextCE := Append(overflow);
      sectors := Closed(sectors, lastSector, nextCE.value);
      ce := CeAt(start, lastSector, last.room, len);
    }
  }

  // ----- what every append keeps -----

  /** A sector is never empty and its room is what its entries leave. */
  ghost predicate SectorOk(s: Sector) {
    s.entries != [] && AllValid(s.entries) && s.room + Total(s.entries) == SECTOR
  }

  ghost predicate AreaOk(sectors: seq<Sector>) { forall i | 0 <= i < |sectors| :: SectorOk(sectors[i]) }

  /** Sectors only grow at their ends. */
  ghost predicate Extends(a: seq<Sector>, b: seq<Sector>) {
    |a| <= |b| && forall i | 0 <= i < |a| :: a[i].entries <= b[i].entries
  }

  /** A run of entries inside one sector. */
  datatype Span = Span(sector: nat, from: nat, to: nat)

  ghost predicate Inside(sectors: seq<Sector>, p: Span) {
    p.sector < |sectors| && p.from < p.to <= |sectors[p.sector].entries|
  }

  ghost function RunOf(sectors: seq<Sector>, p: Span): (r: seq<Entry>)
    requires Inside(sectors, p)
    ensures r != []
  {
    sectors[p.sector].entries[p.from..p.to]
  }

  /** `ce` describes the run `p`. */
  ghost predicate Describes(start: Lba, sectors: seq<Sector>, ce: Entry, p: Span) {
    Inside(sectors, p) && ce.CE? && ce.start == Wrap32(start + p.sector)
    && ce.off == Total(sectors[p.sector].entries[..p.from]) && ce.len == Total(RunOf(sectors, p))
  }

  /** The trail that a chain of CE entries passes. */
  datatype Trail = End(span: Span) | On(span: Span, rest: Trail)

  /** `ce` leads to `es`: a run of them in one sector, ended by the CE for the rest, which
    lies at the start of the next sector. */
  ghost predicate Chain(start: Lba, sectors: seq<Sector>, ce: Entry, trail: Trail, es: seq<Entry>)
    decreases trail, 1
  {
    ce.CE? && forall u {:trigger Unfold(u)} :: Unfold(u) ==> ChainBody(start, sectors, ce, trail, es)
  }

  ghost predicate ChainBody(start: Lba, sectors: seq<Sector>, ce: Entry, trail: Trail, es: seq<Entry>)
    decreases trail, 0
  {
    Describes(start, sectors, ce, trail.span) &&
    var run := RunOf(sectors, trail.span);
    var k := |run| - 1;
    match trail
    case End(_) => run == es
    case On(p, rest) =>
      k < |es| && run[..k] == es[..k]
      && rest.span.sector == p.sector + 1 && rest.span.from == 0
      && Chain(start, sectors, run[k], rest, es[k..])
  }

  lemma RunKept(a: seq<Sector>, b: seq<Sector>, p: Span)
    requires Extends(a, b) && Inside(a, p)
    ensures Inside(b, p) && RunOf(a, p) == RunOf(b, p) && a[p.sector].entries[..p.from] == b[p.sector].entries[..p.from]
  {
    assert a[p.sector].entries <= b[p.sector].entries;
  }

  /** A chain is not disturbed by what is added later. */
  lemma {:induction false} ChainKept(start: Lba, a: seq<Sector>, b: seq<Sector>, ce: Entry, trail: Trail,
      es: seq<Entry>)
    requires Extends(a, b) && Chain(start, a, ce, trail, es)
    ensures Chain(start, b, ce, trail, es)
    decreases trail
  {
    assert Unfold(true);
    RunKept(a, b, trail.span);
    if trail.On? {
      var run := RunOf(a, trail.span);
      ChainKept(start, a, b, run[|run| - 1], trail.rest, es[|run| - 1..]);
    }
  }

  /** The last sector may take entries: it is in order, or fresh. */
  ghost predicate Open(sectors: seq<Sector>) {
    sectors != [] && var s := sectors[|sectors| - 1]; AllValid(s.entries) && s.room + Total(s.entries) == SECTOR
  }

  /** What an append does when something fits in the last sector: only that sector and new ones change,
    they are in order, and the CE leads to the entries. */
  ghost predicate Filed(start: Lba, sectors: seq<Sector>, es: seq<Entry>, r: (seq<Sector>, Entry), trail: Trail)
    requires sectors != []
  {
    var last := |sectors| - 1;
    |r.0| > last && r.0[..last] == sectors[..last] && sectors[last].entries <= r.0[last].entries
    && (forall i | last <= i < |r.0| :: SectorOk(r.0[i]))
    && Chain(start, r.0, r.1, trail, es)
    && trail.span.sector == last && trail.span.from == |sectors[last].entries|
  }

  /** The span of a run put behind the entries of a sector. */
  lemma Placed(start: Lba, sectors: seq<Sector>, i: nat, room: Room, before: seq<Entry>, run: seq<Entry>)
    requires i < |sectors| && sectors[i].entries == before + run && run != []
    requires room + Total(before) == SECTOR && Total(run) <= room
    ensures var p := Span(i, |before|, |before| + |run|);
      Describes(start, sectors, CeAt(start, i, room, Total(run)), p) == true && RunOf(sectors, p) == run
  {
    var p := Span(i, |before|, |before| + |run|);
    assert RunOf(sectors, p) == run;
    assert sectors[i].entries[..p.from] == before;
    assert Wrap32(Total(run)) == Total(run);
  }

  lemma GrownOk(s: Sector, before: Sector, run: seq<Entry>)
    requires AllValid(before.entries) && before.room + Total(before.entries) == SECTOR && AllValid(run) && run != []
    requires s.entries == before.entries + run && s.room == before.room - Total(run)
    ensures SectorOk(s)
  {
    TotalJoin(before.entries, run);
  }

  lemma FitsFiled(start: Lba, sectors: seq<Sector>, es: seq<Entry>) returns (trail: Trail)
    requires es != [] && AllValid(es) && Open(sectors) && Kept(sectors[|sectors| - 1].room, es) == |es|
    ensures Filed(start, sectors, es, Appended(start, sectors, es), trail) == true
  {
    AppendedFits(start, sectors, es);
    var r := Appended(start, sectors, es);
    var last := |sectors| - 1;
    var s := sectors[last];
    Placed(start, r.0, last, s.room, s.entries, es);
    GrownOk(r.0[last], s, es);
    trail := End(Span(last, |s.entries|, |s.entries| + |es|));
    assert ChainBody(start, r.0, r.1, trail, es);
  }

  lemma ReservedFull(sectors: seq<Sector>, es: seq<Entry>)
    requires sectors != [] && 0 < Kept(sectors[|sectors| - 1].room, es) < |es|
    ensures var last := |sectors| - 1; Kept(Reserved(sectors, es)[last].room, es[Kept(sectors[last].room, es)..]) == 0
  {
    SpillOpens(sectors[|sectors| - 1].room, es);
  }

  /** A spill goes on in a fresh sector. */
  lemma SpillStep(start: Lba, sectors: seq<Sector>, es: seq<Entry>)
    requires AllValid(es) && Open(sectors) && 0 < Kept(sectors[|sectors| - 1].room, es) < |es|
    ensures var last := |sectors| - 1;
      var k := Kept(sectors[last].room, es);
      var next := Appended(start, Reserved(sectors, es) + [FRESH], es[k..]);
      Open(Reserved(sectors, es) + [FRESH]) && Kept(FRESH.room, es[k..]) > 0
      && Appended(start, sectors, es)
        == (Closed(next.0, last, next.1), CeAt(start, last, sectors[last].room, Total(es[..k]) + CE_LENGTH))
  {
    var k := Kept(sectors[|sectors| - 1].room, es);
    AppendedSpills(start, sectors, es);
    ReservedFull(sectors, es);
    AppendedFresh(start, Reserved(sectors, es), es[k..]);
    assert Total([]) == 0;
  }

  lemma {:induction false} AppendedFiled(start: Lba, sectors: seq<Sector>, es: seq<Entry>) returns (trail: Trail)
    requires es != [] && AllValid(es) && Open(sectors) && Kept(sectors[|sectors| - 1].room, es) > 0
    ensures Filed(start, sectors, es, Appended(start, sectors, es), trail) == true
    decreases |es|
  {
    var k := Kept(sectors[|sectors| - 1].room, es);
    if k == |es| {
      trail := FitsFiled(start, sectors, es);
    } else {
      SpillStep(start, sectors, es);
      var grown := Reserved(sectors, es) + [FRESH];
      var more := AppendedFiled(start, grown, es[k..]);
      trail := SpillFiled(start, sectors, es, Appended(start, grown, es[k..]), more);
    }
  }

  /** The sectors after a spill: what the rest left, and the closing CE. */
  ghost predicate SpillClosed(sectors: seq<Sector>, es: seq<Entry>, k: nat, next: (seq<Sector>, Entry),
      closed: seq<Sector>)
    requires sectors != [] && k <= |es|
  {
    var last := |sectors| - 1;
    var s := sectors[last];
    Extends(next.0, closed) && |closed| == |next.0| > last && closed[..last] == sectors[..last]
    && (forall i | last < i < |closed| :: closed[i] == next.0[i])
    && closed[last].entries == s.entries + (es[..k] + [next.1])
      && closed[last].room == s.room - (Total(es[..k]) + CE_LENGTH)
  }

  lemma ClosedIs(sectors: seq<Sector>, es: seq<Entry>, next: (seq<Sector>, Entry))
    requires sectors != [] && 0 < Kept(sectors[|sectors| - 1].room, es) < |es|
    requires |next.0| >= |sectors| && next.0[..|sectors|] == Reserved(sectors, es)
    ensures var k := Kept(sectors[|sectors| - 1].room, es);
      SpillClosed(sectors, es, k, next, Closed(next.0, |sectors| - 1, next.1)) == true
  {
    var last := |sectors| - 1;
    var s := sectors[last];
    var k := Kept(s.room, es);
    assert next.0[last] == next.0[..last + 1][last];
    assert s.entries + es[..k] + [next.1] == s.entries + (es[..k] + [next.1]);
    assert next.0[..last] == next.0[..|sectors|][..last];
  }

  lemma RunLength(es: seq<Entry>, ce: Entry)
    requires ce.CE?
    ensures Total(es + [ce]) == Total(es) + CE_LENGTH
  {
    TotalJoin(es, [ce]);
    TotalHead([ce]);
    assert [ce][..1] == [ce];
  }

  /** The CE put into a sector by a spill leads through the run there to the rest. */
  lemma SpillChain(start: Lba, i: nat, s: Sector, es: seq<Entry>, k: nat, next: (seq<Sector>, Entry), more: Trail,
      closed: seq<Sector>) returns (trail: Trail)
    requires k < |es| && s.room + Total(s.entries) == SECTOR && Total(es[..k]) + CE_LENGTH <= s.room
    requires i < |closed| && Extends(next.0, closed) && closed[i].entries == s.entries + (es[..k] + [next.1])
    requires Chain(start, next.0, next.1, more, es[k..])
    requires more.span.sector == i + 1 && more.span.from == 0
    ensures Chain(start, closed, CeAt(start, i, s.room, Total(es[..k]) + CE_LENGTH), trail, es) == true
    ensures trail.span.sector == i && trail.span.from == |s.entries|
  {
    var run := es[..k] + [next.1];
    RunLength(es[..k], next.1);
    Placed(start, closed, i, s.room, s.entries, run);
    ChainKept(start, next.0, closed, next.1, more, es[k..]);
    trail := ChainCons(start, closed, next.1, Span(i, |s.entries|, |s.entries| + |run|), more, es, k,
      CeAt(start, i, s.room, Total(run)));
  }

  lemma SpillFiled(start: Lba, sectors: seq<Sector>, es: seq<Entry>, next: (seq<Sector>, Entry), more: Trail)
    returns (trail: Trail)
    requires AllValid(es) && Open(sectors) && 0 < Kept(sectors[|sectors| - 1].room, es) < |es|
    requires Filed(start, Reserved(sectors, es) + [FRESH], es[Kept(sectors[|sectors| - 1].room, es)..], next, more)
      == true
    ensures var last := |sectors| - 1;
      var k := Kept(sectors[last].room, es);
      |next.0| > last && var ce := CeAt(start, last, sectors[last].room, Total(es[..k]) + CE_LENGTH);
      Filed(start, sectors, es, (Closed(next.0, last, next.1), ce), trail) == true
  {
    var last := |sectors| - 1;
    var k := Kept(sectors[last].room, es);
    assert (Reserved(sectors, es) + [FRESH])[..last + 1] == Reserved(sectors, es);
    ClosedIs(sectors, es, next);
    trail := ClosedFiled(start, sectors, es, k, next, more, Closed(next.0, last, next.1));
  }

  lemma ClosedFiled(start: Lba, sectors: seq<Sector>, es: seq<Entry>, k: nat, next: (seq<Sector>, Entry), more: Trail,
      closed: seq<Sector>) returns (trail: Trail)
    requires AllValid(es) && Open(sectors) && 0 < k < |es| && Total(es[..k]) + CE_LENGTH <= sectors[|sectors| - 1].room
    requires SpillClosed(sectors, es, k, next, closed) == true
    requires Chain(start, next.0, next.1, more, es[k..]) && more.span.sector == |sectors| && more.span.from == 0
    requires forall i | |sectors| <= i < |next.0| :: SectorOk(next.0[i])
    ensures var ce := CeAt(start, |sectors| - 1, sectors[|sectors| - 1].room, Total(es[..k]) + CE_LENGTH);
      Filed(start, sectors, es, (closed, ce), trail) == true
  {
    var last := |sectors| - 1;
    trail := SpillChain(start, last, sectors[last], es, k, next, more, closed);
    RunLength(es[..k], next.1);
    GrownOk(closed[last], sectors[last], es[..k] + [next.1]);
  }

  lemma ChainCons(start: Lba, sectors: seq<Sector>, next: Entry, p: Span, more: Trail, es: seq<Entry>, k: nat,
      ce: Entry) returns (trail: Trail)
    requires k < |es| && Chain(start, sectors, next, more, es[k..]) == true && more.span.sector == p.sector + 1
    requires more.span.from == 0
    requires Describes(start, sectors, ce, p) == true && RunOf(sectors, p) == es[..k] + [next]
    ensures Chain(start, sectors, ce, trail, es) == true && trail.span == p
  {
    trail := On(p, more);
    var run := RunOf(sectors, p);
    assert run[..k] == es[..k] && run[k] == next && |run| == k + 1;
    assert ChainBody(start, sectors, ce, trail, es);
  }

  /** Every append leaves the area in order, only grows it, and returns a CE that leads to its entries. */
  lemma AppendKeeps(start: Lba, sectors: seq<Sector>, es: seq<Entry>) returns (trail: Trail)
    requires es != [] && AllValid(es) && AreaOk(sectors)
    ensures var r := Appended(start, sectors, es);
      AreaOk(r.0) && Extends(sectors, r.0) && Chain(start, r.0, r.1, trail, es)
  {
    var open := sectors;
    if sectors == [] || Kept(sectors[|sectors| - 1].room, es) == 0 {
      AppendedFresh(start, sectors, es);
      open := sectors + [FRESH];
      assert Total([]) == 0;
    } else {
      assert SectorOk(sectors[|sectors| - 1]);
    }
    trail := AppendedFiled(start, open, es);
    FiledKeeps(start, sectors, open, es, Appended(start, open, es), trail);
  }

  lemma FiledKeeps(start: Lba, sectors: seq<Sector>, open: seq<Sector>, es: seq<Entry>, r: (seq<Sector>, Entry),
      trail: Trail)
    requires AreaOk(sectors) && ((sectors != [] && open == sectors) || open == sectors + [FRESH])
    requires Filed(start, open, es, r, trail) == true
    ensures AreaOk(r.0) && Extends(sectors, r.0) && Chain(start, r.0, r.1, trail, es)
  {
    var last := |open| - 1;
    forall i | 0 <= i < |r.0| ensures SectorOk(r.0[i]) {
      if i < last { assert r.0[i] == r.0[..last][i] == open[..last][i]; }
    }
    forall i | 0 <= i < |sectors| ensures sectors[i].entries <= r.0[i].entries {
      if i < last { assert r.0[i] == r.0[..last][i] == open[..last][i]; }
    }
  }

  // ----- the bytes of an area -----

  function SectorBytes(s: Sector): Bytes
    requires AllValid(s.entries)
  {
    Padded(EncodeAll(s.entries))
  }

  function Blocks(sectors: seq<Sector>): (r: seq<Bytes>)
    requires AreaOk(sectors)
    ensures |r| == |sectors| && forall i | 0 <= i < |r| :: r[i] == SectorBytes(sectors[i])
  {
    seq(|sectors|, i requires 0 <= i < |sectors| => assert SectorOk(sectors[i]); SectorBytes(sectors[i]))
  }

  /** What the area takes on the disc. */
  function Image(sectors: seq<Sector>): Bytes
    requires AreaOk(sectors)
  {
    Flatten(Blocks(sectors))
  }

  lemma EncodeHead(a: seq<Entry>, b: seq<Entry>) returns (head: Bytes)
    requires a != [] && AllValid(a) && AllValid(b)
    ensures AllValid(a[1..]) && AllValid(a[1..] + b) && AllValid(a + b)
    ensures EncodeAll(a) == head + EncodeAll(a[1..]) && EncodeAll(a + b) == head + EncodeAll(a[1..] + b)
  {
    assert (a + b)[1..] == a[1..] + b;
    head := Encode(a[0]);
  }

  lemma {:induction false} EncodeJoin(a: seq<Entry>, b: seq<Entry>)
    requires AllValid(a) && AllValid(b)
    ensures AllValid(a + b) && EncodeAll(a + b) == EncodeAll(a) + EncodeAll(b)
  {
    if a == [] {
      assert a + b == b;
    } else {
      EncodeJoin(a[1..], b);
      var head := EncodeHead(a, b);
      Assoc(head, EncodeAll(a[1..]), EncodeAll(b));
    }
  }

  lemma {:induction false} EncodeTotal(es: seq<Entry>)
    requires AllValid(es)
    ensures |EncodeAll(es)| == Total(es)
  {
    if es != [] {
      EncodeLen(es[0]);
      EncodeTotal(es[1..]);
      TotalJoin(es[..1], es[1..]);
      TotalHead(es);
      assert es[..1] + es[1..] == es;
    }
  }

  /** A sector in order takes exactly its size: one that is empty would take nothing. */
  lemma SectorSize(s: Sector)
    requires SectorOk(s)
    ensures |SectorBytes(s)| == SECTOR
  {
    EncodeTotal(s.entries);
    EncodeLen(s.entries[0]);
  }

  lemma BlocksSized(sectors: seq<Sector>)
    requires AreaOk(sectors)
    ensures SectorSized(Blocks(sectors)) == true
  {
    var blocks := Blocks(sectors);
    forall i | 0 <= i < |blocks| ensures |blocks[i]| == SECTOR {
      SectorSize(sectors[i]);
    }
  }

  /** A run of entries lies in the sector's bytes at the sum of the lengths before it. */
  lemma RunBytes(es: seq<Entry>, from: nat, to: nat)
    requires AllValid(es) && from <= to <= |es|
    ensures var off, len := Total(es[..from]), Total(es[from..to]);
      off + len <= |EncodeAll(es)| && EncodeAll(es)[off..off + len] == EncodeAll(es[from..to])
  {
    var a, b, c := es[..from], es[from..to], es[to..];
    Three(es, from, to);
    EncodeJoin(a, b);
    EncodeJoin(a + b, c);
    EncodeTotal(a);
    EncodeTotal(b);
    Middle(EncodeAll(a), EncodeAll(b), EncodeAll(c));
  }
}
