/** Records one after the other in whole sectors, whatever a record is: each starts with its
  length, none lies across a sector boundary, and zero bytes fill up a sector
  (pkg/iso9660/directory.go, and the record iterator of pkg/iso9660/walk.go). */
module RecordScan {
  import opened Prelude
  import opened Sectors

  // ----- writing -----

  /** The bytes left in the sector after `written` bytes: a whole one at its start. */
  function Room(written: nat): (r: nat)
    ensures 0 < r <= 2048
  {
    if written < 2048 then 2048 - written else Room(written - 2048)
  }

  lemma {:induction false} RoomIs(written: nat)
    ensures Room(written) == 2048 - written % 2048
    ensures PadLen(written) == 0 || PadLen(written) == Room(written)
  {
    if written >= 2048 { RoomIs(written - 2048); }
  }

  /** The padding before a piece of `len` bytes: the rest of the sector, if it does not fit there. */
  function Gap(written: nat, len: nat): nat {
    if len > Room(written) then Room(written) else 0
  }

  /** The pieces laid out after `written` bytes. */
  function Laid(written: nat, pieces: seq<Bytes>): Bytes
    decreases |pieces|
  {
    if pieces == [] then []
    else
      var gap := Gap(written, |pieces[0]|);
      Zeros(gap) + pieces[0] + Laid(written + gap + |pieces[0]|, pieces[1..])
  }

  /** Where each piece starts. */
  function Starts(written: nat, pieces: seq<Bytes>): (r: seq<nat>)
    ensures |r| == |pieces|
    decreases |pieces|
  {
    if pieces == [] then []
    else
      var at := written + Gap(written, |pieces[0]|);
      [at] + Starts(at + |pieces[0]|, pieces[1..])
  }

  /** Every piece lies in the extent at its start. */
  lemma PieceInPlace(written: nat, pieces: seq<Bytes>, i: nat)
    requires i < |pieces|
    ensures var at := Starts(written, pieces)[i];
      written <= at && LiesAt(Laid(written, pieces), at - written, pieces[i]) == true
  {
    InPlaceBy(written, pieces, Laid(written, pieces), Starts(written, pieces), i);
    assert UnfoldLies(true);
  }

  /** `LiesAt`, only unfolded where `UnfoldLies(true)` is asserted. */
  ghost predicate Lies(all: Bytes, off: nat, piece: Bytes) {
    forall u {:trigger UnfoldLies(u)} :: UnfoldLies(u) ==> LiesAt(all, off, piece) == true
  }

  ghost predicate UnfoldLies(u: bool) { true }

  /** (Only unfolded where `Unfold(true)` is asserted.) */
  ghost predicate LaidOut(written: nat, pieces: seq<Bytes>, all: Bytes, starts: seq<nat>) {
    forall u {:trigger Unfold(u)} :: Unfold(u) ==> all == Laid(written, pieces) && starts == Starts(written, pieces)
  }

  lemma {:induction false} InPlaceBy(written: nat, pieces: seq<Bytes>, all: Bytes, starts: seq<nat>, i: nat)
    requires LaidOut(written, pieces, all, starts) == true && i < |pieces|
    ensures |starts| == |pieces| && written <= starts[i] && Lies(all, starts[i] - written, pieces[i]) == true
    decreases |pieces|
  {
    var gap, next, tail, rest, more := FirstPlaced(written, pieces, all, starts);
    if i == 0 {
      FirstLies(all, Zeros(gap), pieces[0], rest, starts[0] - written);
    } else {
      InPlaceBy(next, tail, rest, more, i - 1);
      LaterLies(all, Zeros(gap), pieces[0], rest, more[i - 1] - next, tail[i - 1], starts[i] - written);
      assert tail[i - 1] == pieces[i];
    }
  }

  lemma FirstPlaced(written: nat, pieces: seq<Bytes>, all: Bytes, starts: seq<nat>)
    returns (gap: nat, next: nat, tail: seq<Bytes>, rest: Bytes, more: seq<nat>)
    requires LaidOut(written, pieces, all, starts) == true && pieces != []
    ensures all == Zeros(gap) + pieces[0] + rest && starts == [written + gap] + more && |starts| == |pieces|
    ensures next == written + gap + |pieces[0]| && tail == pieces[1..] && LaidOut(next, tail, rest, more) == true
  {
    assert Unfold(true);
    gap := Gap(written, |pieces[0]|);
    next, tail := written + gap + |pieces[0]|, pieces[1..];
    rest, more := Laid(next, tail), Starts(next, tail);
  }

  lemma FirstLies(all: Bytes, a: Bytes, b: Bytes, c: Bytes, off: nat)
    requires all == a + b + c && off == |a|
    ensures Lies(all, off, b) == true
  {
    Middle(a, b, c);
  }

  lemma LaterLies(all: Bytes, a: Bytes, b: Bytes, c: Bytes, at: nat, piece: Bytes, off: nat)
    requires all == a + b + c && Lies(c, at, piece) == true && off == |a| + |b| + at
    ensures Lies(all, off, piece) == true
  {
    assert UnfoldLies(true);
    assert all[off..off + |piece|] == c[at..at + |piece|];
  }

  /** No piece lies across a sector boundary. */
  lemma {:induction false} NoPieceCrosses(written: nat, pieces: seq<Bytes>, i: nat)
    requires i < |pieces| && |pieces[i]| <= 2048
    ensures Starts(written, pieces)[i] % 2048 + |pieces[i]| <= 2048
    decreases |pieces|
  {
    if i == 0 {
      GapFits(written, |pieces[0]|);
    } else {
      NoPieceCrosses(written + Gap(written, |pieces[0]|) + |pieces[0]|, pieces[1..], i - 1);
    }
  }

  lemma GapFits(written: nat, len: nat)
    requires len <= 2048
    ensures (written + Gap(written, len)) % 2048 + len <= 2048
  {
    RoomIs(written);
  }

  /** Where a piece ends, or where the pieces begin. */
  function EndBefore(written: nat, pieces: seq<Bytes>, i: nat): nat
    requires i <= |pieces|
  {
    if i == 0 then written else Starts(written, pieces)[i - 1] + |pieces[i - 1]|
  }

  /** A piece follows the one before without a gap exactly if it fits in that sector, and else starts the next. */
  lemma {:induction false} NoNeedlessGap(written: nat, pieces: seq<Bytes>, i: nat)
    requires i < |pieces|
    ensures var end, at := EndBefore(written, pieces, i), Starts(written, pieces)[i];
      if end % 2048 + |pieces[i]| <= 2048 then at == end else at % 2048 == 0 && end < at <= end + 2048
    decreases |pieces|
  {
    RoomIs(written);
    if i > 0 { NoNeedlessGap(written + Gap(written, |pieces[0]|) + |pieces[0]|, pieces[1..], i - 1); }
  }

  lemma {:induction false} LaidJoin(written: nat, a: seq<Bytes>, b: seq<Bytes>)
    ensures Laid(written, a + b) == Laid(written, a) + Laid(written + |Laid(written, a)|, b)
    decreases |a|
  {
    if a == [] {
      assert a + b == b;
    } else {
      var gap := Gap(written, |a[0]|);
      var next := written + gap + |a[0]|;
      LaidJoin(next, a[1..], b);
      assert (a + b)[1..] == a[1..] + b;
      Assoc(Zeros(gap) + a[0], Laid(next, a[1..]), Laid(next + |Laid(next, a[1..])|, b));
    }
  }

  lemma LaidOne(written: nat, piece: Bytes)
    ensures Laid(written, [piece]) == Zeros(Gap(written, |piece|)) + piece
  {
    assert [piece][1..] == [];
    assert Zeros(Gap(written, |piece|)) + piece + [] == Zeros(Gap(written, |piece|)) + piece;
  }

  lemma Appending(before: Bytes, gap: nat, piece: Bytes)
    ensures (if gap > 0 then before + Zeros(gap) else before) + piece == before + (Zeros(gap) + piece)
  {
  }

  // ----- reading -----

  /** The start of the sector after byte `pos`, as the reader computes it. */
  function SkipTo(pos: nat): (r: nat)
    requires pos + 1 < 0x1_0000_0000
    ensures r == pos + Room(pos)
  {
    RoomIs(pos);
    SectorsToBytes(BytesToSectors(pos + 1))
  }

  datatype Scan<T> = AtEnd | Bad | Found(rec: T, next: nat)

  /** Where the record at `pos` ends: after its declared length, or at the end of the extent. */
  function RecordEnd(dir: Bytes, pos: nat): (r: nat)
    requires pos < |dir| && dir[pos] > 0
    ensures pos < r <= |dir|
  {
    if pos + dir[pos] <= |dir| then pos + dir[pos] else |dir|
  }

  /** The next record from byte `pos` of an extent on, past any padding. */
  function NextRecord<T>(dir: Bytes, pos: nat, decode: Bytes -> Result<T>): (r: Scan<T>)
    requires |dir| < 0x1_0000_0000
    ensures r.Found? ==> pos < r.next <= |dir|
    decreases |dir| - pos
  {
    if pos >= |dir| then AtEnd
    else if dir[pos] == 0 then
      if pos + Room(pos) > |dir| then Bad else NextRecord(dir, pos + Room(pos), decode)
    else
      var end := RecordEnd(dir, pos);
      var rec := decode(dir[pos + 1..end]);
      if rec.Err? then Bad else Found(rec.value, end)
  }

  /** All records from `pos` on. */
  function Listed<T>(dir: Bytes, pos: nat, decode: Bytes -> Result<T>): Result<seq<T>>
    requires |dir| < 0x1_0000_0000
    decreases |dir| - pos
  {
    match NextRecord(dir, pos, decode)
    case AtEnd => Ok([])
    case Bad => Err
    case Found(rec, next) => Cons(rec, Listed(dir, next, decode))
  }

  function Cons<T>(rec: T, rest: Result<seq<T>>): Result<seq<T>> {
    if rest.Err? then Err else Ok([rec] + rest.value)
  }

  /** `whole` is `records` followed by `rest`. */
  ghost predicate Then<T>(whole: Result<seq<T>>, records: seq<T>, rest: Result<seq<T>>) {
    if rest.Err? then whole.Err? else whole == Ok(records + rest.value)
  }

  lemma ThenOne<T>(whole: Result<seq<T>>, records: seq<T>, rec: T, rest: Result<seq<T>>)
    requires Then(whole, records, Cons(rec, rest))
    ensures Then(whole, records + [rec], rest)
  {
    if rest.Ok? { Assoc(records, [rec], rest.value); }
  }

  // ----- reading what was written -----

  /** `piece` is `rec` behind its length. */
  ghost predicate Spells<T>(piece: Bytes, rec: T, decode: Bytes -> Result<T>) {
    0 < |piece| && piece[0] == |piece| && decode(piece[1..]) == Ok(rec)
  }

  ghost predicate AllSpell<T>(pieces: seq<Bytes>, recs: seq<T>, decode: Bytes -> Result<T>) {
    |pieces| == |recs| && forall i | 0 <= i < |recs| :: Spells(pieces[i], recs[i], decode)
  }

  /** What comes next at `pos`. (Only unfolded where `UnfoldScan(true)` is asserted.) */
  ghost predicate Scanned<T>(dir: Bytes, pos: nat, decode: Bytes -> Result<T>, r: Scan<T>) {
    forall u {:trigger UnfoldScan(u)} :: UnfoldScan(u) ==> |dir| < 0x1_0000_0000 && NextRecord(dir, pos, decode) == r
  }

  ghost predicate UnfoldScan(u: bool) { true }

  lemma ScanRecord<T>(dir: Bytes, pos: nat, piece: Bytes, rec: T, decode: Bytes -> Result<T>)
    requires |dir| < 0x1_0000_0000 && LiesAt(dir, pos, piece) && Spells(piece, rec, decode)
    ensures Scanned(dir, pos, decode, Found(rec, pos + |piece|)) == true
  {
    assert dir[pos] == piece[0];
    PartLies(dir, pos, piece, 1, |piece| - 1);
    assert piece[1..|piece|] == piece[1..];
  }

  lemma ScanGap<T>(dir: Bytes, pos: nat, len: nat, decode: Bytes -> Result<T>, r: Scan<T>)
    requires |dir| < 0x1_0000_0000 && len <= 2048 && pos + Gap(pos, len) < |dir|
    requires LiesAt(dir, pos, Zeros(Gap(pos, len))) && Scanned(dir, pos + Gap(pos, len), decode, r) == true
    ensures Scanned(dir, pos, decode, r) == true
  {
    assert UnfoldScan(true);
    var gap := Gap(pos, len);
    if gap > 0 { assert dir[pos] == Zeros(gap)[0]; }
  }

  /** From `end` on there is only padding to the end of the sector, or nothing. */
  ghost predicate Ended(dir: Bytes, end: nat) {
    |dir| == end || (LiesAt(dir, end, Zeros(Room(end))) && |dir| == end + Room(end))
  }

  lemma ScanEnd<T>(dir: Bytes, pos: nat, decode: Bytes -> Result<T>)
    requires |dir| < 0x1_0000_0000 && Ended(dir, pos)
    ensures NextRecord(dir, pos, decode) == AtEnd
  {
    if pos < |dir| {
      assert dir[pos] == Zeros(Room(pos))[0];
      assert NextRecord(dir, |dir|, decode) == AtEnd;
    }
  }

  /** The extent holds the pieces from `pos` on, with the last sector padded out or not. */
  ghost predicate Holds(dir: Bytes, pos: nat, pieces: seq<Bytes>) {
    var laid := Laid(pos, pieces);
    LiesAt(dir, pos, laid) && Ended(dir, pos + |laid|)
  }

  lemma HoldsAll(pieces: seq<Bytes>, tail: Bytes)
    requires tail == [] || tail == Zeros(PadLen(|Laid(0, pieces)|))
    ensures Holds(Laid(0, pieces) + tail, 0, pieces)
  {
    var laid := Laid(0, pieces);
    RoomIs(|laid|);
    InFront(laid, tail, 0, |laid|);
    InBack(laid, tail);
    assert laid[0..|laid|] == laid;
  }

  lemma HoldsNext<T>(dir: Bytes, pos: nat, pieces: seq<Bytes>, rec: T, decode: Bytes -> Result<T>) returns (next: nat)
    requires |dir| < 0x1_0000_0000 && Holds(dir, pos, pieces) == true && pieces != []
    requires Spells(pieces[0], rec, decode) == true
    ensures next > pos && Scanned(dir, pos, decode, Found(rec, next)) == true && Holds(dir, next, pieces[1..]) == true
  {
    var gap := LaidFirst(pos, pieces);
    next := pos + gap + |pieces[0]|;
    CutNext(dir, pos, gap, pieces[0], Laid(next, pieces[1..]), rec, decode);
  }

  lemma LaidFirst(pos: nat, pieces: seq<Bytes>) returns (gap: nat)
    requires pieces != []
    ensures gap == Gap(pos, |pieces[0]|)
    ensures var rest := Laid(pos + gap + |pieces[0]|, pieces[1..]);
      Laid(pos, pieces) == Zeros(gap) + pieces[0] + rest && |Laid(pos, pieces)| == gap + |pieces[0]| + |rest|
  {
    gap := Gap(pos, |pieces[0]|);
  }

  lemma CutNext<T>(dir: Bytes, pos: nat, gap: nat, piece: Bytes, rest: Bytes, rec: T, decode: Bytes -> Result<T>)
    requires |dir| < 0x1_0000_0000 && gap == Gap(pos, |piece|) && LiesAt(dir, pos, Zeros(gap) + piece + rest)
    requires Spells(piece, rec, decode)
    ensures Scanned(dir, pos, decode, Found(rec, pos + gap + |piece|)) == true
    ensures LiesAt(dir, pos + gap + |piece|, rest) == true
  {
    LaidCut(dir, pos, gap, piece, rest);
    ScanRecord(dir, pos + gap, piece, rec, decode);
    ScanGap(dir, pos, |piece|, decode, Found(rec, pos + gap + |piece|));
  }

  lemma LaidCut(dir: Bytes, pos: nat, gap: nat, piece: Bytes, rest: Bytes)
    requires LiesAt(dir, pos, Zeros(gap) + piece + rest)
    ensures LiesAt(dir, pos, Zeros(gap)) == true && LiesAt(dir, pos + gap, piece) == true
    ensures LiesAt(dir, pos + gap + |piece|, rest) == true
  {
    var all := Zeros(gap) + piece + rest;
    PartLies(dir, pos, all, 0, gap);
    PartLies(dir, pos, all, gap, |piece|);
    PartLies(dir, pos, all, gap + |piece|, |rest|);
    assert all[0..gap] == Zeros(gap);
    Middle(Zeros(gap), piece, rest);
    InBack(Zeros(gap) + piece, rest);
  }

  lemma AllSpellTail<T>(pieces: seq<Bytes>, recs: seq<T>, decode: Bytes -> Result<T>)
    requires AllSpell(pieces, recs, decode) && recs != []
    ensures AllSpell(pieces[1..], recs[1..], decode) == true
  {
  }

  /** Any list of records is read back as written, padded out or not. */
  lemma {:induction false} ExtentRoundTrip<T>(dir: Bytes, pos: nat, pieces: seq<Bytes>, recs: seq<T>,
      decode: Bytes -> Result<T>)
    requires |dir| < 0x1_0000_0000 && Holds(dir, pos, pieces) && AllSpell(pieces, recs, decode)
    ensures Listed(dir, pos, decode) == Ok(recs)
    decreases |recs|
  {
    if recs == [] {
      ScanEnd(dir, pos, decode);
    } else {
      var next := HoldsNext(dir, pos, pieces, recs[0], decode);
      assert UnfoldScan(true);
      AllSpellTail(pieces, recs, decode);
      ExtentRoundTrip(dir, next, pieces[1..], recs[1..], decode);
      assert [recs[0]] + recs[1..] == recs;
    }
  }
}
