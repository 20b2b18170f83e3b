/** Finding a path on a mounted disc (`Walker.lstat` and `iterDir`, pkg/iso9660/walk.go, without its cache). */
module Lookup {
  import opened Prelude
  import opened Sectors
  import opened Directory
  import opened FileInfos
  import opened ReadDir

  // ----- one directory -----

  /** The first entry under a name. */
  function FirstNamed(entries: seq<Dirent<FileInfo>>, name: Bytes): Option<FileInfo> {
    if entries == [] then None
    else if entries[0].info.name == name then Some(entries[0].info)
    else FirstNamed(entries[1..], name)
  }

  ghost predicate NoneNamed(entries: seq<Dirent<FileInfo>>, name: Bytes) {
    forall i | 0 <= i < |entries| :: entries[i].info.name != name
  }

  lemma {:induction false} NamedAfter(seen: seq<Dirent<FileInfo>>, rest: seq<Dirent<FileInfo>>, name: Bytes)
    requires NoneNamed(seen, name)
    ensures FirstNamed(seen + rest, name) == FirstNamed(rest, name)
  {
    if seen == [] {
      assert seen + rest == rest;
    } else {
      assert (seen + rest)[1..] == seen[1..] + rest;
      NamedAfter(seen[1..], rest, name);
    }
  }

  lemma NamedNext(all: seq<Dirent<FileInfo>>, seen: seq<Dirent<FileInfo>>, name: Bytes)
    requires seen <= all && NoneNamed(seen, name)
    ensures |seen| == |all| ==> FirstNamed(all, name) == None
    ensures |seen| < |all| && all[|seen|].info.name == name ==> FirstNamed(all, name) == Some(all[|seen|].info)
  {
    NamedAfter(seen, all[|seen|..], name);
    assert seen + all[|seen|..] == all;
  }

  /** The listing is at its end, or at its error. */
  lemma Missed(scan: Scanner, limit: nat, pos: nat, inform: Informer<FileInfo>, all: Listing<FileInfo>,
      seen: seq<Dirent<FileInfo>>, name: Bytes, failed: bool)
    requires Reached(scan, limit, pos, inform, all, seen) == true && NoneNamed(seen, name)
    requires EntryAt(scan, limit, pos, inform, if failed then Failed else Done) == true
    ensures if failed then !all.clean else FirstNamed(all.entries, name) == None
  {
    ReachedStep(scan, limit, pos, inform, all, seen, if failed then Failed else Done);
    NamedNext(all.entries, seen, name);
  }

  /** The next entry is the one. */
  lemma Hit(scan: Scanner, limit: nat, pos: nat, inform: Informer<FileInfo>, all: Listing<FileInfo>,
      seen: seq<Dirent<FileInfo>>, info: FileInfo, len: nat, failed: bool)
    requires Reached(scan, limit, pos, inform, all, seen) == true && NoneNamed(seen, info.name)
    requires EntryAt(scan, limit, pos, inform, Item(info, len)) == true
    requires failed ==> EntryAt(scan, limit, pos + len, inform, Failed) == true
    ensures FirstNamed(all.entries, info.name) == Some(info) && (failed ==> !all.clean)
  {
    ReachedStep(scan, limit, pos, inform, all, seen, Item(info, len));
    NamedNext(all.entries, seen, info.name);
    if failed { ReachedStep(scan, limit, pos + len, inform, all, seen + [Dirent(info, pos + len)], Failed); }
  }

  /** Goes through a directory up to the first entry under a name. An error behind it, if it was seen already,
    counts. */
  method Find(it: ReadDirIterator, name: Bytes, ghost all: Listing<FileInfo>) returns (r: Result<Option<FileInfo>>)
    requires it.Valid() && Underway(it.iso, it.records.scan, it.limit, it.at, it.inform, all, []) == true
    modifies it, it.records
    ensures r.Ok? ==> r.value == FirstNamed(all.entries, name)
    ensures all.clean ==> r.Ok?
  {
    ghost var seen: seq<Dirent<FileInfo>> := [];
    ghost var scan, limit, inform := it.records.scan, it.limit, it.inform;
    while true
      invariant it.Valid() == true && NoneNamed(seen, name)
      invariant Underway(it.iso, scan, limit, it.at, inform, all, seen) == true
      decreases limit - it.at
    {
      ghost var off := it.at;
      UnderwayHere(it.iso, scan, limit, off, inform, all, seen);
      var ok := it.Next();
      if !ok {
        Missed(scan, limit, off, inform, all, seen, name, it.err);
        return if it.err then Err else Ok(None);
      }
      var fi := it.finfo.value;
      if fi.name == name {
        Hit(scan, limit, off, inform, all, seen, fi, it.finfoLen, it.err);
        return if it.err then Err else Ok(Some(fi));
      }
      Grown(it.iso, scan, limit, off, inform, all, seen, fi, it.finfoLen, _ => 0);
      seen := seen + [Dirent(fi, it.at)];
    }
  }

  /** `iterDir` on the directory at block `start`. */
  method FindIn(iso: Bytes, start: Lba, size: Uint32, name: Bytes) returns (r: Result<Option<FileInfo>>)
    requires var dir := Section(iso, start, size);
      Forward(ScanOf(dir, DecodeRecord), |dir|) && ListingHalts(iso, ScanOf(dir, DecodeRecord), |dir|, 0,
      InformerOf(iso))
    ensures var dir := Section(iso, start, size);
      var all := Rest(ScanOf(dir, DecodeRecord), |dir|, 0, InformerOf(iso));
      (r.Ok? ==> r.value == FirstNamed(all.entries, name)) && (all.clean ==> r.Ok?)
  {
    var it := new ReadDirIterator(iso, Section(iso, start, size), 0, DecodeRecord);
    ReachedStart(it.records.scan, it.limit, 0, it.inform);
    r := Find(it, name, Rest(it.records.scan, it.limit, 0, it.inform));
  }
}
