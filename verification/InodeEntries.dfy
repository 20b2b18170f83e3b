/** The system-use entries of an inode (`InodeSystemUseEntries`, pkg/iso9660/inode.go). */
module InodeEntries {
  import opened Prelude
  import opened Susp
  import opened RockRidge
  import opened Expansion

  datatype Kind = IsFile | IsDirectory | IsSymlink

  type Perm = x: int | 0 <= x < 512

  /** What an inode tells about itself; its times are their seven stored bytes. */
  datatype InodeInfo = InodeInfo(
    kind: Kind, perm: Perm, nlink: Uint32, number: Uint32, created: Bytes, modified: Bytes, root: bool, target: Bytes)

  /** Times are seven bytes, and only a directory can be the root. */
  ghost predicate InfoOk(i: InodeInfo) { |i.created| == |i.modified| == 7 && (i.root ==> i.kind.IsDirectory?) }

  const S_IFDIR := 0x4000
  const S_IFREG := 0x8000
  const S_IFLNK := 0xA000

  /** The permissions and the type bit of the kind. */
  function ModeOf(i: InodeInfo): Uint32 {
    i.perm + match i.kind case IsFile => S_IFREG case IsDirectory => S_IFDIR case IsSymlink => S_IFLNK
  }

  /** The extension references that every directory carries. */
  ghost predicate ExtensionsOk(extensions: seq<Entry>) { forall e | e in extensions :: e.ER? && Valid(e) }

  /** What comes before the name. */
  function Leading(extensions: seq<Entry>, identifier: Bytes, i: InodeInfo): seq<Entry> {
    (if i.root && identifier == [0] then [SP(0)] else []) + if i.kind.IsDirectory? then extensions else []
  }

  function Posix(i: InodeInfo): Entry { PX(ModeOf(i), i.nlink, 0, 0, i.number) }

  function Times(i: InodeInfo): Entry { TF(false, [Some(i.created), Some(i.modified), None, None, None, None, None]) }

  function Trailing(i: InodeInfo): seq<Entry> {
    [Posix(i), Times(i)] + if i.kind.IsSymlink? then Link(i.target) else []
  }

  function SystemUse(extensions: seq<Entry>, identifier: Bytes, name: Bytes, i: InodeInfo): seq<Entry> {
    Leading(extensions, identifier, i) + NameEntries(name) + Trailing(i)
  }

  ghost predicate TargetOk(i: InodeInfo) { i.kind.IsSymlink? ==> forall s | s in Split(i.target) :: ValidName(s) }

  /** `AdditionalSystemUseEntries`, after the attributes and times; a link's target is cleaned already. */
  method TrailingEntries(i: InodeInfo) returns (r: Result<seq<Entry>>)
    ensures r.Ok? <==> TargetOk(i)
    ensures r.Ok? ==> r.value == Trailing(i)
  {
    var tail := [Posix(i), Times(i)];
    if i.kind.IsSymlink? {
      var link := NewSymlink(i.target);
      if link.Err? {
        return Err;
      }
      return Ok(tail + link.value);
    }
    assert tail + [] == tail;
    r := Ok(tail);
  }

  /** `InodeSystemUseEntries`. */
  method InodeSystemUseEntries(extensions: seq<Entry>, identifier: Bytes, name: Bytes, i: InodeInfo)
    returns (r: Result<seq<Entry>>)
    ensures r.Ok? <==> ValidName(name) && TargetOk(i)
    ensures r.Ok? ==> r.value == SystemUse(extensions, identifier, name, i)
  {
    var result: seq<Entry> := [];
    if i.root && identifier == [0] {
      result := result + [SP(0)];
    }
    if i.kind.IsDirectory? {
      result := result + extensions;
    }
    assert result == Leading(extensions, identifier, i);
    var nms := NewName(name);
    if nms.Err? {
      return Err;
    }
    var tail := TrailingEntries(i);
    if tail.Err? {
      return Err;
    }
    r := Ok(result + nms.value + tail.value);
  }

  lemma {:induction false} NoStamps(stamps: seq<Option<Bytes>>)
    requires forall i | 0 <= i < |stamps| :: stamps[i].None?
    ensures StampsLen(false, stamps) == 0
  {
    if stamps != [] { NoStamps(stamps[1..]); }
  }

  lemma TwoStamps(stamps: seq<Option<Bytes>>)
    requires |stamps| == 7 && stamps[0].Some? && stamps[1].Some? && forall i | 2 <= i < 7 :: stamps[i].None?
    ensures StampsLen(false, stamps) == 14
  {
    NoStamps(stamps[2..]);
    assert stamps[1..][1..] == stamps[2..];
    assert StampsLen(false, stamps[1..]) == 7;
  }

  lemma TimesValid(i: InodeInfo)
    requires InfoOk(i)
    ensures Valid(Times(i)) == true && Len(Times(i)) == 19
  {
    TwoStamps(Times(i).stamps);
  }

  ghost predicate Writable(e: Entry) { Valid(e) && !e.CE? }

  lemma TrailingWritable(i: InodeInfo)
    requires InfoOk(i)
    ensures forall e | e in Trailing(i) :: Writable(e)
  {
    TimesValid(i);
    if i.kind.IsSymlink? { LinkValid(i.target); }
    forall e | e in Trailing(i) ensures Writable(e) {
      if e != Posix(i) && e != Times(i) { assert i.kind.IsSymlink? && e in Link(i.target); }
    }
  }

  /** All entries can be written, and none is a CE. */
  lemma SystemUseValid(extensions: seq<Entry>, identifier: Bytes, name: Bytes, i: InodeInfo)
    requires ExtensionsOk(extensions) && ValidName(name) && InfoOk(i)
    ensures AllValid(SystemUse(extensions, identifier, name, i)) == true
    ensures Plain(SystemUse(extensions, identifier, name, i)) == true
  {
    NameEntriesValid(name);
    TrailingWritable(i);
    var es := SystemUse(extensions, identifier, name, i);
    forall e | e in es ensures Writable(e) {
      if e in Leading(extensions, identifier, i) {
        assert e == SP(0) || e in extensions;
      } else if e !in NameEntries(name) {
        assert e in Trailing(i);
      }
    }
  }

  // ----- what the bytes say -----

  /** The POSIX file type in the top four bits, the permissions below. */
  lemma ModeIs(i: InodeInfo)
    ensures ModeOf(i) / 0x1000 == match i.kind case IsFile => 8 case IsDirectory => 4 case IsSymlink => 10
    ensures ModeOf(i) % 0x1000 == i.perm
  {
  }

  lemma NoStampBytes(stamps: seq<Option<Bytes>>)
    requires forall j | 0 <= j < |stamps| :: stamps[j].None?
    ensures StampFlags(stamps) == 0 && StampBytes(stamps) == []
  {
    if stamps != [] { NoStampBytes(stamps[1..]); }
  }

  /** The times as RRIP has them: the bits of creation and modification, and then the two in this order. */
  lemma TimesBytes(i: InodeInfo)
    requires InfoOk(i)
    ensures Valid(Times(i)) == true && Encode(Times(i)) == [0x54, 0x46, 19, 1, 3] + i.created + i.modified
  {
    TimesValid(i);
    var stamps := Times(i).stamps;
    NoStampBytes(stamps[2..]);
    assert stamps[1..][1..] == stamps[2..];
    assert StampFlags(stamps[1..]) == 1 && StampBytes(stamps[1..]) == i.modified + [];
    assert StampFlags(stamps) == 3 && StampBytes(stamps) == i.created + (i.modified + []);
  }

  /** The attributes as RRIP has them. */
  lemma PosixBytes(i: InodeInfo)
    ensures Valid(Posix(i)) == true
    ensures Encode(Posix(i))
      == [0x50, 0x58, 44, 1] + (Both32(ModeOf(i)) + Both32(i.nlink) + Both32(0) + Both32(0) + Both32(i.number))
  {
  }

  /** Only `.` of the root starts with the SP entry, and nothing else has one; directories, and no others, carry the
    extension references. */
  lemma Markers(extensions: seq<Entry>, identifier: Bytes, name: Bytes, i: InodeInfo)
    requires ExtensionsOk(extensions) && ValidName(name)
    ensures var es := SystemUse(extensions, identifier, name, i);
      (SP(0) in es <==> i.root && identifier == [0]) && (SP(0) in es ==> es[0] == SP(0))
      && (forall e | e in extensions :: e in es <==> i.kind.IsDirectory?)
  {
    var es := SystemUse(extensions, identifier, name, i);
    NameEntriesValid(name);
    if i.kind.IsSymlink? { LinkValid(i.target); }
    forall e | e in es && (e.SP? || e.ER?) ensures e in Leading(extensions, identifier, i) {}
  }
}
