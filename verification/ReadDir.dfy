/** Listing a directory from any offset: the record iterator, the entry iterator with its
  one-record look-ahead (pkg/iso9660/walk.go), and the FUSE listing on top
  (pkg/isofuse/dir.go). */
module ReadDir {
  import opened Prelude
  import opened Sectors
  import opened Directory
  import opened FileInfos
  import opened RecordScan

  type Decoder = Bytes -> Result<Record>

  /** What comes next at each offset of a directory. */
  datatype Scanner = Scanner(scan: nat -> Scan<Record>)

  ghost function At(scan: Scanner, p: nat): Scan<Record> { scan.scan(p) }

  ghost predicate Forward(scan: Scanner, limit: nat) {
    forall p: nat :: At(scan, p).Found? ==> p < At(scan, p).next <= limit
  }

  function ScanOf(dir: Bytes, decode: Decoder): Scanner
    requires |dir| < 0x1_0000_0000
  {
    Scanner((p: nat) => if |dir| < 0x1_0000_0000 then NextRecord(dir, p, decode) else AtEnd)
  }

  lemma ScanForward(dir: Bytes, decode: Decoder)
    requires |dir| < 0x1_0000_0000
    ensures Forward(ScanOf(dir, decode), |dir|)
  {
  }

  /** The section of the image that a directory record points to, in uint32 arithmetic. */
  function Section(iso: Bytes, start: Lba, size: Uint32): Bytes {
    Copied(iso, Wrap32(2048 * start), size)
  }

  // ----- what a listing is -----

  /** The group of records with one identifier that goes on at `pos`: where it ends and its total size. */
  ghost function Group(scan: Scanner, limit: nat, identifier: Bytes, pos: nat, size: nat): (r: (nat, nat))
    requires Forward(scan, limit)
    ensures r.0 >= pos
    decreases limit - pos
  {
    var next := At(scan, pos);
    if next.Found? && next.rec.identifier == identifier
    then Group(scan, limit, identifier, next.next, size + next.rec.length)
    else (pos, size)
  }

  /** `I` is what a listing shows of an entry: made from its first record and the size of the group. */
  datatype Informer<!I> = Informer(of: (Record, nat) -> Result<I>)

  ghost function Info<I>(inform: Informer<I>, rec: Record, size: nat): Result<I> { inform.of(rec, size) }

  datatype Item<I> = Done | Failed | Item(info: I, len: nat)

  /** The entry at `pos` and how many bytes it takes. */
  ghost function NextEntry<I>(scan: Scanner, limit: nat, pos: nat, inform: Informer<I>): (r: Item<I>)
    requires Forward(scan, limit)
    ensures r.Item? ==> r.len > 0 && pos < limit
  {
    match At(scan, pos)
    case AtEnd => Done
    case Bad => Failed
    case Found(first, next) =>
      var group := Group(scan, limit, first.identifier, next, first.length);
      var info := Info(inform, first, group.1);
      if info.Err? then Failed else Item(info.value, group.0 - pos)
  }

  /** Guards, like `Unfold`. */
  ghost predicate UnfoldEntry(u: bool) { true }
  ghost predicate UnfoldInfo(u: bool) { true }
  ghost predicate UnfoldListing(u: bool) { true }

  /** What `NextEntry` and `Group` compute. (Only unfolded where `UnfoldEntry(true)` is asserted.) */
  ghost predicate EntryAt<I>(scan: Scanner, limit: nat, pos: nat, inform: Informer<I>, item: Item<I>) {
    forall u {:trigger UnfoldEntry(u)} :: UnfoldEntry(u) ==>
      Forward(scan, limit) && NextEntry(scan, limit, pos, inform) == item
  }

  ghost predicate GroupAt(scan: Scanner, limit: nat, rec: Record, next: nat, end: nat, size: nat) {
    forall u {:trigger UnfoldEntry(u)} :: UnfoldEntry(u) ==>
      Forward(scan, limit) && Group(scan, limit, rec.identifier, next, rec.length) == (end, size)
  }

  /** The group has come to `pos` so far. */
  ghost predicate GroupSoFar(scan: Scanner, limit: nat, rec: Record, next: nat, pos: nat, size: nat) {
    forall u {:trigger UnfoldEntry(u)} :: UnfoldEntry(u) ==>
      Forward(scan, limit) && Group(scan, limit, rec.identifier, next, rec.length)
        == Group(scan, limit, rec.identifier, pos, size)
  }

  lemma GroupStep(scan: Scanner, limit: nat, rec: Record, next: nat, pos: nat, size: nat)
    requires GroupSoFar(scan, limit, rec, next, pos, size) == true
    ensures var here := At(scan, pos);
      if here.Found? && here.rec.identifier == rec.identifier
      then pos < here.next <= limit && GroupSoFar(scan, limit, rec, next, here.next, size + here.rec.length) == true
      else GroupAt(scan, limit, rec, next, pos, size) == true
  {
    assert UnfoldEntry(true);
  }

  lemma NoEntryAt<I>(scan: Scanner, limit: nat, pos: nat, inform: Informer<I>)
    requires Forward(scan, limit) && !At(scan, pos).Found?
    ensures EntryAt(scan, limit, pos, inform, if At(scan, pos).AtEnd? then Done else Failed) == true
  {
  }

  lemma GroupEntryAt<I>(scan: Scanner, limit: nat, pos: nat, inform: Informer<I>, rec: Record, next: nat, end: nat,
      size: nat)
    requires Forward(scan, limit) && At(scan, pos) == Found(rec, next)
    requires GroupAt(scan, limit, rec, next, end, size) == true
    ensures end > pos
    ensures var info := Info(inform, rec, size);
      EntryAt(scan, limit, pos, inform, if info.Err? then Failed else Item(info.value, end - pos)) == true
  {
    assert UnfoldEntry(true);
  }

  // ----- the record iterator -----

  class RecordIterator {
    const dir: Bytes
    const decode: Decoder
    ghost const scan: Scanner
    var pos: nat
    var rec: Option<Record>
    var recLen: int
    var err: bool

    /** (Only unfolded where `Unfold(true)` is asserted.) */
    ghost predicate Valid() {
      forall u {:trigger Unfold(u)} :: Unfold(u) ==> |dir| < 0x1_0000_0000 && scan == ScanOf(dir, decode)
    }

    constructor (dir: Bytes, off: nat, decode: Decoder)
      requires |dir| < 0x1_0000_0000
      ensures Valid() && this.dir == dir && this.decode == decode && scan == ScanOf(dir, decode) && pos == off && !err
    {
      this.dir, this.decode, pos := dir, decode, off;
      rec, recLen, err := None, -1, false;
      scan := ScanOf(dir, decode);
    }

    /** Reads the next record, past any padding. */
    method Next() returns (ok: bool)
      requires Valid()
      modifies this
      ensures old(err) ==> !ok && err && pos == old(pos)
      ensures !old(err) ==> match At(scan, old(pos))
        case AtEnd => !ok && !err
        case Bad => !ok && err
        case Found(r, next) => ok && !err && rec == Some(r) && pos == next && recLen == next - old(pos)
    {
      assert Unfold(true);
      if err {
        return false;
      }
      var start := pos;
      while true
        invariant !err && pos >= start
        invariant NextRecord(dir, pos, decode) == NextRecord(dir, start, decode)
        decreases |dir| - pos
      {
        if pos >= |dir| {
          rec, recLen := None, -1;
          return false;
        }
        var rlen := dir[pos];
        if rlen == 0 {
          var next := SkipTo(pos);
          if next > |dir| {
            rec, recLen, err := None, -1, true;
            return false;
          }
          pos := next;
          continue;
        }
        var end := RecordEnd(dir, pos);
        var r := decode(dir[pos + 1..end]);
        if r.Err? {
          rec, recLen, err := None, -1, true;
          return false;
        }
        pos := end;
        rec, recLen := Some(r.value), pos - start;
        return true;
      }
    }
  }

  // ----- the entry iterator -----

  /** The iterator shows what the image says of a record. (Only unfolded where `UnfoldInfo(true)` is asserted.) */
  ghost predicate Informs(iso: Bytes, inform: Informer<FileInfo>) {
    forall u {:trigger UnfoldInfo(u)} :: UnfoldInfo(u) ==> inform == InformerOf(iso)
  }

  ghost function InformerOf(iso: Bytes): Informer<FileInfo> {
    Informer((rec: Record, size: nat) => Shown(iso, rec, size))
  }

  /** The second half of `ReadDirIterator.Next`. */
  method Inspect(iso: Bytes, ghost inform: Informer<FileInfo>, ghost scan: Scanner, ghost pos: nat, ghost next: nat,
      rec: Record, size: nat) returns (info: Result<FileInfo>)
    requires Informs(iso, inform) == true && HaltsAt(iso, scan, pos) == true && At(scan, pos) == Found(rec, next)
    ensures info == Info(inform, rec, size)
  {
    assert UnfoldInfo(true);
    info := Inform(iso, rec, size);
  }

  /** The expansion of the record found at `pos`, if there is one, comes to an end. (Only unfolded where
    `UnfoldInfo(true)`
    is asserted.) */
  ghost predicate HaltsAt(iso: Bytes, scan: Scanner, pos: nat) {
    forall u {:trigger UnfoldInfo(u)} :: UnfoldInfo(u) ==> At(scan, pos).Found? ==> Halts(iso, At(scan, pos).rec)
  }

  class ReadDirIterator {
    const records: RecordIterator
    const iso: Bytes
    ghost const inform: Informer<FileInfo>
    var finfo: Option<FileInfo>
    var finfoLen: int
    var peeked: Option<Record>
    var peekedLen: int
    var err: bool
    var exhausted: bool
    /** Where the next entry starts: the offset of the listing and all lengths returned since. */
    ghost var at: nat

    ghost const limit: nat

    /** Ready to read on at `p`. */
    ghost predicate Ready(p: int)
      reads this, records
    {
      records.Valid() && !exhausted && !err && !records.err && peeked == None && records.pos == p
    }

    /** The look-ahead has found what comes at `p`. */
    ghost predicate Ahead(p: nat)
      reads this, records
    {
      records.Valid() &&
      match At(records.scan, p)
      case AtEnd => exhausted && !err && peeked == None
      case Bad => exhausted && err && peeked == None
      case Found(r, next) =>
        !exhausted && !err && !records.err && peeked == Some(r) && records.pos == next && peekedLen == next - p
    }

    ghost predicate Valid()
      reads this, records
    {
      records.Valid() && Forward(records.scan, limit) == true && Informs(iso, inform) == true
      && if err then EntryAt(records.scan, limit, at, inform, Failed) == true else Ready(at) || Ahead(at)
    }

    constructor (iso: Bytes, dir: Bytes, off: nat, decode: Decoder)
      requires |dir| < 0x1_0000_0000
      ensures Valid() && fresh(records) && at == off && this.iso == iso
      ensures records.scan == ScanOf(dir, decode) && limit == |dir| && inform == InformerOf(iso)
    {
      records := new RecordIterator(dir, off, decode);
      this.iso, this.inform := iso, InformerOf(iso);
      finfo, finfoLen, peeked, peekedLen, err, exhausted := None, -1, None, -1, false, false;
      at := off;
      limit := |dir|;
      new;
      ScanForward(dir, decode);
    }

    /** The first record of the next entry: the one peeked at, or one read now. */
    method First() returns (curr: Option<Record>, currLen: int)
      requires Valid() && !exhausted && !err
      modifies this, records
      ensures unchanged(this`at, this`finfo, this`finfoLen)
      ensures match At(records.scan, at)
        case AtEnd => curr == None && exhausted && !err && peeked == None
        case Bad => curr == None && exhausted && err && peeked == None
        case Found(r, next) => curr == Some(r) && currLen == next - at && Ready(next)
    {
      if peeked == None {
        var ok := records.Next();
        if ok {
          curr, currLen := records.rec, records.recLen;
        } else {
          exhausted, err := true, records.err;
          curr, currLen := None, -1;
        }
      } else {
        curr, currLen := peeked, peekedLen;
        peeked, peekedLen := None, -1;
      }
    }

    /** Looks ahead over the records with the same identifier. */
    method Gather(curr: Record, firstLen: int) returns (currLen: int, size: nat)
      requires Ready(at + firstLen) && at + firstLen >= 0 && Forward(records.scan, limit)
      modifies this, records
      ensures unchanged(this`at, this`finfo, this`finfoLen)
      ensures at + currLen >= at + firstLen && Ahead(at + currLen)
      ensures GroupAt(records.scan, limit, curr, at + firstLen, at + currLen, size) == true
    {
      currLen, size := firstLen, curr.length;
      ghost var scan, next, pos: nat := records.scan, at + firstLen, at + firstLen;
      while true
        invariant unchanged(this`at, this`finfo, this`finfoLen) && pos == at + currLen >= next
        invariant Ready(pos) && GroupSoFar(scan, limit, curr, next, pos, size) == true
        decreases limit - pos
      {
        GroupStep(scan, limit, curr, next, pos, size);
        var ok := records.Next();
        if ok {
          var peek := records.rec.value;
          if peek.identifier == curr.identifier {
            currLen, size := currLen + records.recLen, size + peek.length;
            pos := records.pos;
          } else {
            peeked, peekedLen := Some(peek), records.recLen;
            return;
          }
        } else {
          exhausted, err := true, records.err;
          return;
        }
      }
    }

    /** Makes the entry that begins with `curr`. */
    method Serve(curr: Record, firstLen: int) returns (ok: bool)
      requires Forward(records.scan, limit) == true && Informs(iso, inform) == true
      requires HaltsAt(iso, records.scan, at) == true
      requires at + firstLen >= 0 && Ready(at + firstLen) && At(records.scan, at) == Found(curr, at + firstLen)
      modifies this, records
      ensures Valid() && (ok ==> finfo.Some? && finfoLen >= 0 && at == old(at) + finfoLen)
      ensures (!ok ==> at == old(at) && err)
      ensures EntryAt(records.scan, limit, old(at), inform, if ok then Item(finfo.value, finfoLen) else Failed) == true
    {
      var currLen, size := Gather(curr, firstLen);
      GroupEntryAt(records.scan, limit, at, inform, curr, at + firstLen, at + currLen, size);
      var info := Inspect(iso, inform, records.scan, at, at + firstLen, curr, size);
      if info.Err? {
        err := true;
        return false;
      }
      finfo, finfoLen := Some(info.value), currLen;
      if exhausted { NoEntryAt(records.scan, limit, at + currLen, inform); }
      at := at + currLen;
      return true;
    }

    /** Each call returns the entry at the current offset and moves the offset past it: nothing else
      of what the iterator has seen before matters. */
    method Next() returns (ok: bool)
      requires Valid() && HaltsAt(iso, records.scan, at) == true
      modifies this, records
      ensures Valid() && (ok ==> finfo.Some? && finfoLen >= 0 && at == old(at) + finfoLen) && (!ok ==> at == old(at))
      ensures EntryAt(records.scan, limit, old(at), inform,
        if ok then Item(finfo.value, finfoLen) else if err then Failed else Done) == true
    {
      if exhausted || err {
        if !err { NoEntryAt(records.scan, limit, at, inform); }
        return false;
      }
      var first, firstLen := First();
      if first == None {
        NoEntryAt(records.scan, limit, at, inform);
        return false;
      }
      ok := Serve(first.value, firstLen);
    }
  }

  // ----- whole listings -----

  /** An entry and the offset behind it. */
  datatype Dirent<I> = Dirent(info: I, off: nat)

  /** Some entries, and whether the listing ends after them without an error. */
  datatype Listing<I> = Listing(entries: seq<Dirent<I>>, clean: bool)

  /** All entries from `pos` on, and how the listing ends. */
  ghost function Rest<I>(scan: Scanner, limit: nat, pos: nat, inform: Informer<I>): Listing<I>
    requires Forward(scan, limit)
    decreases limit - pos
  {
    match NextEntry(scan, limit, pos, inform)
    case Done => Listing([], true)
    case Failed => Listing([], false)
    case Item(info, len) =>
      var rest := Rest(scan, limit, pos + len, inform);
      Listing([Dirent(info, pos + len)] + rest.entries, rest.clean)
  }

  /** The offset behind some entries that start at `pos`. */
  function Behind<I>(pos: nat, entries: seq<Dirent<I>>): nat {
    if entries == [] then pos else entries[|entries| - 1].off
  }

  /** Restarting behind any number of entries yields exactly the others, and the same error if any. */
  lemma {:induction false} Resume<I>(scan: Scanner, limit: nat, pos: nat, inform: Informer<I>, k: nat)
    requires Forward(scan, limit) && k <= |Rest(scan, limit, pos, inform).entries|
    ensures var all := Rest(scan, limit, pos, inform);
      Rest(scan, limit, Behind(pos, all.entries[..k]), inform) == Listing(all.entries[k..], all.clean)
    decreases k
  {
    var all := Rest(scan, limit, pos, inform);
    if k == 0 {
      assert all.entries[..0] == [] && all.entries[0..] == all.entries;
    } else {
      var next := all.entries[0].off;
      var rest := Rest(scan, limit, next, inform);
      assert all.entries == [all.entries[0]] + rest.entries;
      Resume(scan, limit, next, inform, k - 1);
      assert all.entries[k..] == rest.entries[k - 1..] && all.entries[..k] == [all.entries[0]] + rest.entries[..k - 1];
      assert Behind(pos, all.entries[..k]) == Behind(next, rest.entries[..k - 1]);
    }
  }

  function Used<I>(entries: seq<Dirent<I>>, need: I -> nat): nat {
    if entries == [] then 0 else Used(entries[..|entries| - 1], need) + need(entries[|entries| - 1].info)
  }

  /** The answer to one read: entries from the beginning of the listing that fit in `space` bytes; more only
    if the next one does not fit; an error only if the listing has one. */
  ghost predicate Answers<I>(all: Listing<I>, entries: seq<Dirent<I>>, failed: bool, space: nat, need: I -> nat) {
    entries <= all.entries && Used(entries, need) <= space
    && (failed ==> !all.clean)
    && (!failed && |entries| < |all.entries| ==> Used(entries, need) + need(all.entries[|entries|].info) > space)
    && (!failed && |entries| == |all.entries| ==> all.clean)
  }

  /** Every expansion that a listing from `pos` on needs comes to an end. */
  ghost predicate ListingHalts(iso: Bytes, scan: Scanner, limit: nat, pos: nat, inform: Informer<FileInfo>)
    requires Forward(scan, limit)
    decreases limit - pos
  {
    HaltsAt(iso, scan, pos) && var next := NextEntry(scan, limit, pos, inform);
    next.Item? ==> ListingHalts(iso, scan, limit, pos + next.len, inform)
  }

  /** (Only unfolded where `UnfoldListing(true)` is asserted, like `Reached`.) */
  ghost predicate Halting(iso: Bytes, scan: Scanner, limit: nat, pos: nat, inform: Informer<FileInfo>) {
    forall u {:trigger UnfoldListing(u)} :: UnfoldListing(u) ==>
      Forward(scan, limit) && ListingHalts(iso, scan, limit, pos, inform)
  }

  lemma HaltsHere(iso: Bytes, scan: Scanner, limit: nat, pos: nat, inform: Informer<FileInfo>)
    requires Halting(iso, scan, limit, pos, inform) == true
    ensures HaltsAt(iso, scan, pos) == true
  {
    assert UnfoldEntry(true) && UnfoldListing(true);
  }

  lemma HaltsNext(iso: Bytes, scan: Scanner, limit: nat, pos: nat, inform: Informer<FileInfo>, info: FileInfo, len: nat)
    requires Halting(iso, scan, limit, pos, inform) == true
    requires EntryAt(scan, limit, pos, inform, Item(info, len)) == true
    ensures 0 < len && pos < limit && Halting(iso, scan, limit, pos + len, inform) == true
  {
    assert UnfoldEntry(true) && UnfoldListing(true);
  }

  /** A listing without an error halts. */
  lemma {:induction false} CleanHalts(iso: Bytes, scan: Scanner, limit: nat, pos: nat)
    requires Forward(scan, limit) && Rest(scan, limit, pos, InformerOf(iso)).clean
    ensures ListingHalts(iso, scan, limit, pos, InformerOf(iso))
    decreases limit - pos
  {
    var next := NextEntry(scan, limit, pos, InformerOf(iso));
    assert HaltsAt(iso, scan, pos);
    if next.Item? { CleanHalts(iso, scan, limit, pos + next.len); }
  }

  /** `isoFS.ReadDir`: lists the directory at block `start` of the image from `offset` on, each entry with the offset
    behind it. An entry that needs `need` bytes is written only if they are left. */
  method ListFrom(iso: Bytes, start: Lba, size: Uint32, offset: nat, space: nat, need: FileInfo -> nat)
    returns (entries: seq<Dirent<FileInfo>>, failed: bool)
    requires var dir := Section(iso, start, size);
      Forward(ScanOf(dir, DecodeRecord), |dir|) && ListingHalts(iso, ScanOf(dir, DecodeRecord), |dir|, offset,
      InformerOf(iso))
    ensures var dir := Section(iso, start, size);
      Answers(Rest(ScanOf(dir, DecodeRecord), |dir|, offset, InformerOf(iso)), entries, failed, space, need)
  {
    var it := new ReadDirIterator(iso, Section(iso, start, size), offset, DecodeRecord);
    ReachedStart(it.records.scan, it.limit, offset, it.inform);
    entries, failed := Drain(it, offset, space, need, Rest(it.records.scan, it.limit, offset, it.inform));
  }

  /** The loop of `isoFS.ReadDir`. */
  method Drain(it: ReadDirIterator, offset: nat, space: nat, need: FileInfo -> nat, ghost all: Listing<FileInfo>)
    returns (entries: seq<Dirent<FileInfo>>, failed: bool)
    requires it.Valid() && it.at == offset
    requires Underway(it.iso, it.records.scan, it.limit, offset, it.inform, all, []) == true
    modifies it, it.records
    ensures Answers(all, entries, failed, space, need) == true
  {
    var off, used := offset, 0;
    entries := [];
    ghost var scan, limit, inform := it.records.scan, it.limit, it.inform;
    while true
      invariant it.Valid() == true && it.at == off
      invariant used == Used(entries, need) <= space
      invariant Underway(it.iso, scan, limit, off, inform, all, entries) == true
      decreases limit - off
    {
      UnderwayHere(it.iso, scan, limit, off, inform, all, entries);
      var ok := it.Next();
      if !ok {
        Ended(scan, limit, off, inform, all, entries, it.err, space, need);
        return entries, it.err;
      }
      var fi, l := it.finfo.value, it.finfoLen;
      if need(fi) > space - used {
        Full(scan, limit, off, inform, all, entries, fi, l, it.err, space, need);
        return entries, it.err;
      }
      Grown(it.iso, scan, limit, off, inform, all, entries, fi, l, need);
      entries := entries + [Dirent(fi, off + l)];
      off, used := off + l, used + need(fi);
    }
  }

  /** The listing is at its end, or at its error. */
  lemma Ended<I>(scan: Scanner, limit: nat, pos: nat, inform: Informer<I>, all: Listing<I>, entries: seq<Dirent<I>>,
      failed: bool, space: nat, need: I -> nat)
    requires Reached(scan, limit, pos, inform, all, entries) == true && Used(entries, need) <= space
    requires EntryAt(scan, limit, pos, inform, if failed then Failed else Done) == true
    ensures Answers(all, entries, failed, space, need) == true
  {
    ReachedStep(scan, limit, pos, inform, all, entries, if failed then Failed else Done);
  }

  /** The next entry does not fit. */
  lemma Full<I>(scan: Scanner, limit: nat, pos: nat, inform: Informer<I>, all: Listing<I>, entries: seq<Dirent<I>>,
      info: I, len: nat, failed: bool, space: nat, need: I -> nat)
    requires Reached(scan, limit, pos, inform, all, entries) == true
    requires EntryAt(scan, limit, pos, inform, Item(info, len)) == true
    requires Used(entries, need) <= space < Used(entries, need) + need(info)
    requires failed ==> EntryAt(scan, limit, pos + len, inform, Failed) == true
    ensures Answers(all, entries, failed, space, need) == true
  {
    ReachedStep(scan, limit, pos, inform, all, entries, Item(info, len));
    if failed { ReachedStep(scan, limit, pos + len, inform, all, entries + [Dirent(info, pos + len)], Failed); }
  }

  /** The listing has come to `pos` and halts from there on. */
  ghost predicate Underway(iso: Bytes, scan: Scanner, limit: nat, pos: nat, inform: Informer<FileInfo>,
      all: Listing<FileInfo>, entries: seq<Dirent<FileInfo>>) {
    Reached(scan, limit, pos, inform, all, entries) == true && Halting(iso, scan, limit, pos, inform) == true
  }

  lemma UnderwayHere(iso: Bytes, scan: Scanner, limit: nat, pos: nat, inform: Informer<FileInfo>,
      all: Listing<FileInfo>, entries: seq<Dirent<FileInfo>>)
    requires Underway(iso, scan, limit, pos, inform, all, entries) == true
    ensures Reached(scan, limit, pos, inform, all, entries) == true && HaltsAt(iso, scan, pos) == true
  {
    HaltsHere(iso, scan, limit, pos, inform);
  }

  lemma Grown(iso: Bytes, scan: Scanner, limit: nat, pos: nat, inform: Informer<FileInfo>,
      all: Listing<FileInfo>, entries: seq<Dirent<FileInfo>>, info: FileInfo, len: nat, need: FileInfo -> nat)
    requires Underway(iso, scan, limit, pos, inform, all, entries) == true
    requires EntryAt(scan, limit, pos, inform, Item(info, len)) == true
    ensures 0 < len && pos < limit
    ensures var more := entries + [Dirent(info, pos + len)];
      Underway(iso, scan, limit, pos + len, inform, all, more) == true
        && Used(more, need) == Used(entries, need) + need(info)
  {
    HaltsNext(iso, scan, limit, pos, inform, info, len);
    ReachedStep(scan, limit, pos, inform, all, entries, Item(info, len));
    assert (entries + [Dirent(info, pos + len)])[..|entries|] == entries;
  }

  /** `all` is `entries` and then what comes at `pos`. */
  ghost predicate Reached<I>(scan: Scanner, limit: nat, pos: nat, inform: Informer<I>, all: Listing<I>,
      entries: seq<Dirent<I>>) {
    forall u {:trigger UnfoldListing(u)} :: UnfoldListing(u) ==>
      Forward(scan, limit) && var rest := Rest(scan, limit, pos, inform);
      all.entries == entries + rest.entries && all.clean == rest.clean
  }

  lemma ReachedStart<I>(scan: Scanner, limit: nat, pos: nat, inform: Informer<I>)
    requires Forward(scan, limit)
    ensures Reached(scan, limit, pos, inform, Rest(scan, limit, pos, inform), []) == true
  {
    assert [] + Rest(scan, limit, pos, inform).entries == Rest(scan, limit, pos, inform).entries;
  }

  lemma ReachedStep<I>(scan: Scanner, limit: nat, pos: nat, inform: Informer<I>, all: Listing<I>,
      entries: seq<Dirent<I>>, next: Item<I>)
    requires Reached(scan, limit, pos, inform, all, entries) == true && EntryAt(scan, limit, pos, inform, next) == true
    ensures entries <= all.entries
    ensures if next.Item? then
        |entries| < |all.entries| && all.entries[|entries|].info == next.info
        && Reached(scan, limit, pos + next.len, inform, all, entries + [Dirent(next.info, pos + next.len)]) == true
      else all == Listing(entries, next.Done?)
  {
    assert UnfoldEntry(true) && UnfoldListing(true);
    match next
    case Done => assert entries + [] == entries;
    case Failed => assert entries + [] == entries;
    case Item(info, len) => Assoc(entries, [Dirent(info, pos + len)], Rest(scan, limit, pos + len, inform).entries);
  }

  /** The entries of one read after the other, each read starting behind the one before. */
  ghost predicate Reads<I>(scan: Scanner, limit: nat, pos: nat, inform: Informer<I>, chunks: seq<seq<Dirent<I>>>)
    requires Forward(scan, limit)
    decreases |chunks|
  {
    chunks == [] || (chunks[0] <= Rest(scan, limit, pos, inform).entries
      && Reads(scan, limit, Behind(pos, chunks[0]), inform, chunks[1..]))
  }

  ghost function Joined<T>(chunks: seq<seq<T>>): seq<T> {
    if chunks == [] then [] else chunks[0] + Joined(chunks[1..])
  }

  /** Chunked reads skip and repeat nothing: together they are the beginning of the whole listing,
    and the offset they arrive at yields the rest of it. */
  lemma {:induction false} ReadsAreListing<I>(scan: Scanner, limit: nat, pos: nat, inform: Informer<I>,
      chunks: seq<seq<Dirent<I>>>)
    requires Forward(scan, limit) && Reads(scan, limit, pos, inform, chunks)
    ensures var all, got := Rest(scan, limit, pos, inform), Joined(chunks);
      got <= all.entries && Rest(scan, limit, Behind(pos, got), inform) == Listing(all.entries[|got|..], all.clean)
    decreases |chunks|
  {
    var all := Rest(scan, limit, pos, inform);
    if chunks != [] {
      var first, more := chunks[0], Joined(chunks[1..]);
      var next := Behind(pos, first);
      assert all.entries[..|first|] == first;
      Resume(scan, limit, pos, inform, |first|);
      ReadsAreListing(scan, limit, next, inform, chunks[1..]);
      PrefixJoin(all.entries, first, more);
      assert Behind(pos, first + more) == Behind(next, more);
    }
  }

  lemma PrefixJoin<T>(s: seq<T>, a: seq<T>, b: seq<T>)
    requires a <= s && b <= s[|a|..]
    ensures a + b <= s && s[|a + b|..] == s[|a|..][|b|..]
  {
  }
}
