/** One entry per child: a directory that was packed and written lists exactly its items, each
  with its whole size (pkg/iso9660/walk.go, over what pkg/iso9660/directoryinode.go packs). */
module Listings {
  import opened Prelude
  import opened Directory
  import opened RecordScan
  import opened ReadDir

  // ----- groups of records -----

  function Lengths(recs: seq<Record>): nat {
    if recs == [] then 0 else recs[0].length + Lengths(recs[1..])
  }

  ghost predicate SameIdentifier(recs: seq<Record>, identifier: Bytes) {
    forall i | 0 <= i < |recs| :: recs[i].identifier == identifier
  }

  /** A group of records, with how it is written. */
  datatype Written = Written(recs: seq<Record>, pieces: seq<Bytes>)

  ghost predicate WrittenOk(g: Written, decode: Decoder) {
    g.recs != [] && AllSpell(g.pieces, g.recs, decode) && SameIdentifier(g.recs, g.recs[0].identifier)
  }

  /** The pieces of all groups, one after the other. */
  ghost function AllPieces(groups: seq<Written>): seq<Bytes> {
    if groups == [] then [] else groups[0].pieces + AllPieces(groups[1..])
  }

  /** Groups of records, neighbours having different identifiers. */
  ghost predicate Grouping(groups: seq<Written>, decode: Decoder) {
    (forall i | 0 <= i < |groups| :: WrittenOk(groups[i], decode))
    && forall i {:trigger Differ(groups, i)} | 0 <= i < |groups| - 1 :: Differ(groups, i)
  }

  ghost predicate Differ(groups: seq<Written>, i: nat)
    requires i + 1 < |groups|
  {
    groups[i].recs != [] && groups[i + 1].recs != [] && groups[i].recs[0].identifier != groups[i + 1].recs[0].identifier
  }

  /** `scan` is the scan of a directory that holds the pieces from `pos` on. (Only unfolded where `Unfold(true)` is
    asserted.) */
  ghost predicate On(dir: Bytes, decode: Decoder, scan: Scanner, pos: nat, pieces: seq<Bytes>) {
    forall u {:trigger Unfold(u)} :: Unfold(u) ==>
      |dir| < 0x1_0000_0000 && scan == ScanOf(dir, decode) && Holds(dir, pos, pieces) == true
  }

  lemma OnNext(dir: Bytes, decode: Decoder, scan: Scanner, pos: nat, pieces: seq<Bytes>, rec: Record)
    returns (next: nat)
    requires On(dir, decode, scan, pos, pieces) == true && pieces != [] && Spells(pieces[0], rec, decode) == true
    ensures next > pos && At(scan, pos) == Found(rec, next) && On(dir, decode, scan, next, pieces[1..]) == true
  {
    assert Unfold(true);
    next := HoldsNext(dir, pos, pieces, rec, decode);
    ScanAt(dir, decode, pos, Found(rec, next));
  }

  lemma ScanAt(dir: Bytes, decode: Decoder, pos: nat, r: Scan<Record>)
    requires |dir| < 0x1_0000_0000 && Scanned(dir, pos, decode, r) == true
    ensures At(ScanOf(dir, decode), pos) == r
  {
    assert UnfoldScan(true);
  }

  lemma OnEnd(dir: Bytes, decode: Decoder, scan: Scanner, pos: nat)
    requires On(dir, decode, scan, pos, []) == true
    ensures At(scan, pos) == AtEnd
  {
    assert Unfold(true);
    ScanEnd(dir, pos, decode);
  }

  /** What comes after a group is another identifier, or nothing. */
  ghost predicate Stops(scan: Scanner, pos: nat, identifier: Bytes) {
    At(scan, pos).AtEnd? || (At(scan, pos).Found? && At(scan, pos).rec.identifier != identifier)
  }

  ghost predicate AllStop(dir: Bytes, decode: Decoder, scan: Scanner, more: seq<Bytes>, identifier: Bytes) {
    forall p: nat {:trigger On(dir, decode, scan, p, more)} | On(dir, decode, scan, p, more) == true ::
      Stops(scan, p, identifier)
  }

  /** The scan runs over the rest of a group and stops behind it. */
  lemma {:induction false} GroupRead(dir: Bytes, decode: Decoder, scan: Scanner, limit: nat, pos: nat,
      pieces: seq<Bytes>, recs: seq<Record>,
      more: seq<Bytes>, identifier: Bytes, size: nat) returns (end: nat)
    requires Forward(scan, limit) && On(dir, decode, scan, pos, pieces + more) == true
    requires AllSpell(pieces, recs, decode) == true && SameIdentifier(recs, identifier)
    requires AllStop(dir, decode, scan, more, identifier) == true
    ensures end >= pos && On(dir, decode, scan, end, more) == true
    ensures Group(scan, limit, identifier, pos, size) == (end, size + Lengths(recs))
    decreases |recs|
  {
    if recs == [] {
      assert pieces + more == more;
      end := pos;
    } else {
      var next := OnNext(dir, decode, scan, pos, pieces + more, recs[0]);
      assert (pieces + more)[1..] == pieces[1..] + more;
      AllSpellTail(pieces, recs, decode);
      end := GroupRead(dir, decode, scan, limit, next, pieces[1..], recs[1..], more, identifier, size + recs[0].length);
    }
  }

  lemma StopsAt(dir: Bytes, decode: Decoder, scan: Scanner, groups: seq<Written>, pos: nat, identifier: Bytes)
    requires Grouping(groups, decode) && On(dir, decode, scan, pos, AllPieces(groups)) == true
    requires groups != [] ==> groups[0].recs != [] && groups[0].recs[0].identifier != identifier
    ensures Stops(scan, pos, identifier)
  {
    if groups == [] {
      OnEnd(dir, decode, scan, pos);
    } else {
      assert WrittenOk(groups[0], decode);
      var next := OnNext(dir, decode, scan, pos, AllPieces(groups), groups[0].recs[0]);
    }
  }

  lemma GroupingTail(groups: seq<Written>, decode: Decoder)
    requires Grouping(groups, decode) && groups != []
    ensures Grouping(groups[1..], decode) == true
  {
    forall i | 0 <= i < |groups[1..]| - 1 ensures Differ(groups[1..], i) {
      assert Differ(groups, i + 1);
    }
  }

  /** The entries that a listing of the groups shows, and where each ends. */
  ghost predicate Shows<I>(entries: seq<Dirent<I>>, groups: seq<Written>, inform: Informer<I>) {
    |entries| == |groups|
    && forall i | 0 <= i < |entries| :: ShowsOne(entries[i], groups[i], inform)
  }

  ghost predicate ShowsOne<I>(e: Dirent<I>, g: Written, inform: Informer<I>) {
    g.recs != [] && Info(inform, g.recs[0], Lengths(g.recs)) == Ok(e.info)
  }

  ghost predicate Known<I>(g: Written, inform: Informer<I>) {
    g.recs != [] && Info(inform, g.recs[0], Lengths(g.recs)).Ok?
  }

  /** The first entry of a listing: a whole group. */
  lemma FirstEntry<I>(dir: Bytes, decode: Decoder, scan: Scanner, limit: nat, pos: nat, groups: seq<Written>,
      inform: Informer<I>) returns (end: nat)
    requires Forward(scan, limit) && On(dir, decode, scan, pos, AllPieces(groups)) == true
    requires groups != [] && Grouping(groups, decode) == true && Known(groups[0], inform)
    ensures end > pos && On(dir, decode, scan, end, AllPieces(groups[1..])) == true
    ensures var info := Info(inform, groups[0].recs[0], Lengths(groups[0].recs)).value;
      EntryAt(scan, limit, pos, inform, Item(info, end - pos)) == true
  {
    var g, more := groups[0], AllPieces(groups[1..]);
    assert WrittenOk(g, decode);
    var identifier := g.recs[0].identifier;
    var next := OnNext(dir, decode, scan, pos, g.pieces + more, g.recs[0]);
    assert (g.pieces + more)[1..] == g.pieces[1..] + more;
    AllSpellTail(g.pieces, g.recs, decode);
    NextGroupStops(dir, decode, scan, groups);
    end := GroupRead(dir, decode, scan, limit, next, g.pieces[1..], g.recs[1..], more, identifier, g.recs[0].length);
  }

  lemma NextGroupStops(dir: Bytes, decode: Decoder, scan: Scanner, groups: seq<Written>)
    requires groups != [] && Grouping(groups, decode) == true && groups[0].recs != []
    ensures AllStop(dir, decode, scan, AllPieces(groups[1..]), groups[0].recs[0].identifier) == true
  {
    GroupingTail(groups, decode);
    if |groups| > 1 { assert Differ(groups, 0); }
    forall p: nat | On(dir, decode, scan, p, AllPieces(groups[1..])) == true
      ensures Stops(scan, p, groups[0].recs[0].identifier)
    {
      StopsAt(dir, decode, scan, groups[1..], p, groups[0].recs[0].identifier);
    }
  }

  /** A directory that holds the groups lists one entry per group, made from its first record and all
    its lengths, and ends without an error. */
  lemma {:induction false} OneEntryPerGroup<I>(dir: Bytes, decode: Decoder, scan: Scanner, limit: nat, pos: nat,
      groups: seq<Written>, inform: Informer<I>)
    requires Forward(scan, limit) && Grouping(groups, decode) == true
    requires On(dir, decode, scan, pos, AllPieces(groups)) == true
    requires forall i | 0 <= i < |groups| :: Known(groups[i], inform)
    ensures var listing := Rest(scan, limit, pos, inform); Shows(listing.entries, groups, inform) && listing.clean
    decreases |groups|
  {
    if groups == [] {
      OnEnd(dir, decode, scan, pos);
    } else {
      var end := FirstEntry(dir, decode, scan, limit, pos, groups, inform);
      GroupingTail(groups, decode);
      OneEntryPerGroup(dir, decode, scan, limit, end, groups[1..], inform);
      var info := Info(inform, groups[0].recs[0], Lengths(groups[0].recs)).value;
      RestCons(scan, limit, pos, inform, info, end);
      ShowsCons(Dirent(info, end), Rest(scan, limit, end, inform).entries, groups, inform);
    }
  }

  lemma RestCons<I>(scan: Scanner, limit: nat, pos: nat, inform: Informer<I>, info: I, end: nat)
    requires Forward(scan, limit) && end > pos && EntryAt(scan, limit, pos, inform, Item(info, end - pos)) == true
    ensures var rest := Rest(scan, limit, end, inform);
      Rest(scan, limit, pos, inform) == Listing([Dirent(info, end)] + rest.entries, rest.clean)
  {
    assert UnfoldEntry(true);
  }

  lemma ShowsCons<I>(e: Dirent<I>, entries: seq<Dirent<I>>, groups: seq<Written>, inform: Informer<I>)
    requires groups != [] && ShowsOne(e, groups[0], inform) && Shows(entries, groups[1..], inform)
    ensures Shows([e] + entries, groups, inform) == true
  {
    var all := [e] + entries;
    forall i | 0 <= i < |all| ensures ShowsOne(all[i], groups[i], inform) {
      if i > 0 { assert ShowsOne(entries[i - 1], groups[1..][i - 1], inform); }
    }
  }
}
