/** What a listing shows of a directory record (the second half of `ReadDirIterator.Next`, pkg/iso9660/walk.go). */
module FileInfos {
  import opened Prelude
  import opened Sectors
  import opened Susp
  import opened RockRidge
  import opened Expansion
  import opened Directory
  import opened InodeEntries

  /** Type and permissions; the time is the stored modification time, if there is one. */
  datatype FileInfo = FileInfo(
    name: Bytes, size: nat, kind: Kind, perm: Perm, nlink: Uint32, uid: Uint32, gid: Uint32, ino: Uint32,
    modified: Option<Bytes>, isDir: bool, extent: Lba, target: Bytes)

  /** `DecodePosixEntry` and `DecodeTimestamps`: the first entry of the kind. */
  function FirstPosix(entries: seq<Entry>): (r: Option<Entry>)
    ensures r.Some? ==> r.value.PX?
  {
    if entries == [] then None else if entries[0].PX? then Some(entries[0]) else FirstPosix(entries[1..])
  }

  function FirstTimes(entries: seq<Entry>): (r: Option<Entry>)
    ensures r.Some? ==> r.value.TF?
  {
    if entries == [] then None else if entries[0].TF? then Some(entries[0]) else FirstTimes(entries[1..])
  }

  /** A directory if that bit is set, else a link if both of its bits are. */
  function KindOf(mode: Uint32): Kind {
    if mode / 0x4000 % 2 == 1 then IsDirectory
    else if mode / 0x8000 % 2 == 1 && mode / 0x2000 % 2 == 1 then IsSymlink
    else IsFile
  }

  function NameOf(rec: Record, entries: seq<Entry>): Bytes {
    var name := JoinName([], entries);
    if name.Some? then name.value
    else if rec.identifier == [0] then DOT else if rec.identifier == [1] then DOTDOT else rec.identifier
  }

  /** The information made from a record, the size of its group and its expanded entries. */
  function InfoOf(rec: Record, size: nat, entries: seq<Entry>): FileInfo {
    var target, px, tf := JoinLink(entries), FirstPosix(entries), FirstTimes(entries);
    var kind := if px.Some? then KindOf(px.value.mode) else if DirFlag(rec) then IsDirectory
      else if target.Some? then IsSymlink else IsFile;
    var perm := if px.Some? then px.value.mode % 512 else if DirFlag(rec) then 365
      else if target.Some? then 511 else 292;
    FileInfo(NameOf(rec, entries), if target.Some? then |target.value| else size, kind, perm,
      if px.Some? then px.value.nlink else 1, if px.Some? then px.value.uid else 0, if px.Some? then px.value.gid else
      0,
      if px.Some? then px.value.ino else rec.start,
      if tf.Some? && |tf.value.stamps| > 1 then tf.value.stamps[1] else None,
      DirFlag(rec), rec.start, if target.Some? then target.value else [])
  }

  /** The expansion of the record's entries comes to an end. */
  ghost predicate Halts(iso: Bytes, rec: Record) { exists fuel: nat :: Ends(ReaderOf(iso), rec.systemUse, fuel) }

  ghost function Expanded(iso: Bytes, rec: Record): Result<seq<Entry>>
    requires Halts(iso, rec)
  {
    var fuel: nat :| Ends(ReaderOf(iso), rec.systemUse, fuel);
    Expand(ReaderOf(iso), rec.systemUse, fuel)
  }

  /** What is shown, or the error; nothing is if the expansion never ends. */
  ghost function Shown(iso: Bytes, rec: Record, size: nat): Result<FileInfo> {
    if !Halts(iso, rec) || Expanded(iso, rec).Err? then Err else Ok(InfoOf(rec, size, Expanded(iso, rec).value))
  }

  lemma ShownIs(iso: Bytes, rec: Record, size: nat, entries: seq<Entry>)
    requires ExpandsTo(iso, rec.systemUse, entries)
    ensures Halts(iso, rec) && Shown(iso, rec, size) == Ok(InfoOf(rec, size, entries))
  {
    var read := ReaderOf(iso);
    var f: nat :| Ends(read, rec.systemUse, f) && Expand(read, rec.systemUse, f) == Ok(entries);
    var g: nat :| Ends(read, rec.systemUse, g) && Expanded(iso, rec) == Expand(read, rec.systemUse, g);
    FuelIrrelevant(read, rec.systemUse, f, g);
  }

  method FindPosix(entries: seq<Entry>) returns (r: Option<Entry>)
    ensures r == FirstPosix(entries)
  {
    for i := 0 to |entries|
      invariant FirstPosix(entries) == FirstPosix(entries[i..])
    {
      if entries[i].PX? {
        return Some(entries[i]);
      }
      assert entries[i..][1..] == entries[i + 1..];
    }
    r := None;
  }

  method FindTimes(entries: seq<Entry>) returns (r: Option<Entry>)
    ensures r == FirstTimes(entries)
  {
    for i := 0 to |entries|
      invariant FirstTimes(entries) == FirstTimes(entries[i..])
    {
      if entries[i].TF? {
        return Some(entries[i]);
      }
      assert entries[i..][1..] == entries[i + 1..];
    }
    r := None;
  }

  /** Puts the information together from expanded entries. */
  method MakeInfo(rec: Record, groupSize: nat, entries: seq<Entry>) returns (r: FileInfo)
    ensures r == InfoOf(rec, groupSize, entries)
  {
    var decoded := DecodeName(entries);
    var name;
    if decoded.Some? {
      name := decoded.value;
    } else if rec.identifier == [0] {
      name := DOT;
    } else if rec.identifier == [1] {
      name := DOTDOT;
    } else {
      name := rec.identifier;
    }
    var isDir := DirFlag(rec);
    var link := DecodeSymlink(entries);
    var size, target := groupSize, [];
    if link.Some? {
      target, size := link.value, |link.value|;
    }
    var kind, perm, nlink, uid, gid, ino := IsFile, 292, 1, 0, 0, rec.start;
    var pe := FindPosix(entries);
    if pe.Some? {
      perm, nlink, uid, gid, ino := pe.value.mode % 512, pe.value.nlink, pe.value.uid, pe.value.gid, pe.value.ino;
      kind := KindOf(pe.value.mode);
    } else if isDir {
      kind, perm := IsDirectory, 365;
    } else if link.Some? {
      kind, perm := IsSymlink, 511;
    }
    var ts := FindTimes(entries);
    var modified := if ts.Some? && |ts.value.stamps| > 1 then ts.value.stamps[1] else None;
    r := FileInfo(name, size, kind, perm, nlink, uid, gid, ino, modified, isDir, rec.start, target);
  }

  /** The information of a record, through its continuations. */
  method Inform(iso: Bytes, rec: Record, size: nat) returns (r: Result<FileInfo>)
    requires Halts(iso, rec)
    ensures r == Shown(iso, rec, size)
  {
    var systemUse := AllSystemUseEntries(iso, rec.systemUse);
    if systemUse.Err? {
      return Err;
    }
    var info := MakeInfo(rec, size, systemUse.value);
    r := Ok(info);
  }

  // ----- an inode, shown -----

  lemma {:induction false} PosixAmong(before: seq<Entry>, px: Entry, after: seq<Entry>)
    requires px.PX? && forall e | e in before :: !e.PX?
    ensures FirstPosix(before + [px] + after) == Some(px)
  {
    var all := before + [px] + after;
    if before != [] {
      assert before[0] in before && all[1..] == before[1..] + [px] + after;
      PosixAmong(before[1..], px, after);
    }
  }

  lemma {:induction false} TimesAmong(before: seq<Entry>, tf: Entry, after: seq<Entry>)
    requires tf.TF? && forall e | e in before :: !e.TF?
    ensures FirstTimes(before + [tf] + after) == Some(tf)
  {
    var all := before + [tf] + after;
    if before != [] {
      assert before[0] in before && all[1..] == before[1..] + [tf] + after;
      TimesAmong(before[1..], tf, after);
    }
  }

  /** The last segment of a link's target is not `.`, `..` or empty. */
  predicate Ordinary(target: Bytes) { var segments := Split(target); !Special(segments[|segments| - 1]) }

  /** Modes carry their kind and permissions. */
  lemma ModeTells(i: InodeInfo)
    ensures KindOf(ModeOf(i)) == i.kind && ModeOf(i) % 512 == i.perm
  {
  }

  /** The POSIX file types: a block device and a socket have the bit of a directory too, and are shown as one. */
  lemma KindsOfTypes(perm: nat)
    requires perm < 0x1000
    ensures KindOf(0x4000 + perm) == KindOf(0x6000 + perm) == KindOf(0xC000 + perm) == IsDirectory
    ensures KindOf(0xA000 + perm) == IsSymlink
    ensures KindOf(0x8000 + perm) == KindOf(0x1000 + perm) == KindOf(0x2000 + perm) == IsFile
  {
  }

  /** What comes before the attributes. */
  function Front(extensions: seq<Entry>, identifier: Bytes, name: Bytes, i: InodeInfo): seq<Entry> {
    Leading(extensions, identifier, i) + NameEntries(name)
  }

  function LinkOf(i: InodeInfo): seq<Entry> { if i.kind.IsSymlink? then Link(i.target) else [] }

  lemma FrontPlain(extensions: seq<Entry>, identifier: Bytes, name: Bytes, i: InodeInfo)
    requires ExtensionsOk(extensions) && ValidName(name)
    ensures forall e | e in Front(extensions, identifier, name, i) :: !e.SL? && !e.PX? && !e.TF?
  {
    NameEntriesValid(name);
    forall e | e in Front(extensions, identifier, name, i) ensures !e.SL? && !e.PX? && !e.TF? {
      if e in Leading(extensions, identifier, i) { assert e == SP(0) || e in extensions; }
    }
  }

  lemma Grouped<T>(front: seq<T>, a: T, b: T, link: seq<T>)
    ensures front + ([a, b] + link) == front + [a] + ([b] + link) == front + [a] + [b] + link
      == front + [a, b] + link + []
  {
  }

  /** The link shown: the target, if it can be read back. */
  lemma LinkShown(extensions: seq<Entry>, identifier: Bytes, name: Bytes, i: InodeInfo)
    requires ExtensionsOk(extensions) && ValidName(name)
    ensures JoinLink(SystemUse(extensions, identifier, name, i))
      == if i.kind.IsSymlink? && Ordinary(i.target) then Some(i.target) else None
  {
    var front := Front(extensions, identifier, name, i);
    FrontPlain(extensions, identifier, name, i);
    Grouped(front, Posix(i), Times(i), LinkOf(i));
    var before := front + [Posix(i), Times(i)];
    if i.kind.IsSymlink? {
      LinkRoundTrip(before, i.target, []);
    } else {
      NothingAfter([], before);
      assert before + [] + [] == before;
    }
  }

  lemma NameShown(extensions: seq<Entry>, identifier: Bytes, name: Bytes, i: InodeInfo)
    requires ExtensionsOk(extensions) && name != []
    ensures JoinName([], SystemUse(extensions, identifier, name, i)) == Some(name)
  {
    var before := Leading(extensions, identifier, i);
    forall e | e in before ensures !e.NM? { assert e == SP(0) || e in extensions; }
    NameAmongOthers(before, name, Trailing(i));
  }

  lemma AttributesShown(extensions: seq<Entry>, identifier: Bytes, name: Bytes, i: InodeInfo)
    requires ExtensionsOk(extensions) && ValidName(name)
    ensures FirstPosix(SystemUse(extensions, identifier, name, i)) == Some(Posix(i))
    ensures FirstTimes(SystemUse(extensions, identifier, name, i)) == Some(Times(i))
  {
    var front := Front(extensions, identifier, name, i);
    FrontPlain(extensions, identifier, name, i);
    Grouped(front, Posix(i), Times(i), LinkOf(i));
    PosixAmong(front, Posix(i), [Times(i)] + LinkOf(i));
    TimesAmong(front + [Posix(i)], Times(i), LinkOf(i));
  }

  /** A listing shows an inode under its name, with its own attributes, time, address, and size: a link's is that of
    its target, if that can be read back. */
  ghost predicate ShowsInode(info: FileInfo, name: Bytes, i: InodeInfo, extent: Lba, size: nat) {
    var linked := i.kind.IsSymlink? && Ordinary(i.target);
    info.name == name && info.kind == i.kind && info.perm == i.perm && info.nlink == i.nlink
      && info.uid == info.gid == 0
    && info.ino == i.number && info.modified == Some(i.modified) && info.extent == extent
    && info.isDir == i.kind.IsDirectory?
    && info.target == (if linked then i.target else []) && info.size == if linked then |i.target| else size
  }

  lemma InodeShown(extensions: seq<Entry>, identifier: Bytes, name: Bytes, i: InodeInfo, rec: Record, size: nat)
    requires ExtensionsOk(extensions) && ValidName(name) && name != [] && DirFlag(rec) == i.kind.IsDirectory?
    ensures ShowsInode(InfoOf(rec, size, SystemUse(extensions, identifier, name, i)), name, i, rec.start, size)
  {
    LinkShown(extensions, identifier, name, i);
    NameShown(extensions, identifier, name, i);
    AttributesShown(extensions, identifier, name, i);
    ModeTells(i);
  }

  /** Of the times read back, the first is the inode's creation and the second its modification; there are no others. */
  lemma TimesShown(extensions: seq<Entry>, identifier: Bytes, name: Bytes, i: InodeInfo)
    requires ExtensionsOk(extensions) && ValidName(name)
    ensures var tf := FirstTimes(SystemUse(extensions, identifier, name, i));
      tf.Some? && |tf.value.stamps| == 7
      && tf.value.stamps[0] == Some(i.created) && tf.value.stamps[1] == Some(i.modified)
      && forall k | 2 <= k < 7 :: tf.value.stamps[k].None?
  {
    AttributesShown(extensions, identifier, name, i);
  }
}
