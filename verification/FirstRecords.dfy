/** What a listing shows of an inode, from the first of its records (pkg/iso9660/directoryinode.go, inode.go and
  walk.go together): the inode itself, even where a further part has clobbered that record. */
module FirstRecords {
  import opened Prelude
  import opened Susp
  import opened RockRidge
  import opened Continuation
  import opened Expansion
  import opened Directory
  import opened Identifier
  import opened Packing
  import opened Aliasing
  import opened InodeEntries
  import opened FileInfos

  // ----- which inodes are clobbered -----

  lemma KeptNone(room: nat, es: seq<Entry>)
    requires es != [] && Len(es[0]) > room
    ensures Kept(room, es) == 0
  {
    HeadBelow(es, |es|);
    assert es[..|es|] == es;
    KeptBelowNone(room, es, |es| - 1);
  }

  lemma HeadBelow(es: seq<Entry>, n: nat)
    requires 0 < n <= |es|
    ensures Total(es[..n]) >= Len(es[0])
  {
    Monotone(es, 1, n);
    assert Continuation.Sum(es[..1], 1) == Continuation.Sum(es[..1], 0) + Len(es[0]);
  }

  lemma {:induction false} KeptBelowNone(room: nat, es: seq<Entry>, k: nat)
    requires k <= |es| && es != [] && Len(es[0]) > room
    ensures KeptBelow(room, es, k) == 0
  {
    if k > 0 {
      HeadBelow(es, k);
      KeptBelowNone(room, es, k - 1);
    }
  }

  lemma KeepsFirst(room: nat, es: seq<Entry>)
    requires es != [] && Len(es[0]) + CE_LENGTH <= room
    ensures Kept(room, es) > 0
  {
    assert Continuation.Sum(es[..1], 1) == Continuation.Sum(es[..1], 0) + Len(es[0]);
    assert |es| == 1 ==> es[..1] == es;
    if |es| > 1 { KeptAtLeast(room, es, |es| - 1, 1); }
  }

  /** With room for two CEs, a list whose very first entry goes to the area is not clobbered. */
  lemma ClobberedKeeps(room: nat, es: seq<Entry>, n: nat)
    requires room >= 2 * CE_LENGTH && Clobbered(room, es, n)
    ensures Kept(room, es) > 0
  {
    if Kept(room, es) == 0 { KeepsFirst(room, es[0 := MARK]); }
  }

  /** A file that is clobbered has a name in one piece, and only that piece stays in the record. */
  lemma ClobberedFile(room: nat, extensions: seq<Entry>, identifier: Bytes, name: Bytes, i: InodeInfo, n: nat)
    requires 2 * CE_LENGTH <= room < 255 && InfoOk(i) && i.kind.IsFile? && name != []
    requires AllValid(SystemUse(extensions, identifier, name, i))
    requires Clobbered(room, SystemUse(extensions, identifier, name, i), n)
    ensures SystemUse(extensions, identifier, name, i) == [NM(false, name), Posix(i), Times(i)]
    ensures Kept(room, SystemUse(extensions, identifier, name, i)) == 1
  {
    var es := SystemUse(extensions, identifier, name, i);
    ClobberedKeeps(room, es, n);
    if |name| > NAME_CHUNK {
      assert es[0] == NM(true, name[..NAME_CHUNK]);
      KeptNone(room, es);
    }
    ClobberedMark(room, es, n, MARK);
  }

  // ----- what is shown -----

  /** The lists that are read back from a clobbered file: the name first, then only its attributes and times. */
  ghost predicate Jumbled(es: seq<Entry>, name: Bytes, i: InodeInfo) {
    es != [] && es[0] == NM(false, name) && Posix(i) in es && Times(i) in es
    && forall e | e in es[1..] :: e == Posix(i) || e == Times(i)
  }

  lemma {:induction false} PosixFound(es: seq<Entry>, px: Entry)
    requires px.PX? && px in es && forall e | e in es :: e.PX? ==> e == px
    ensures FirstPosix(es) == Some(px)
  {
    if es[0] != px { PosixFound(es[1..], px); }
  }

  lemma {:induction false} TimesFound(es: seq<Entry>, tf: Entry)
    requires tf.TF? && tf in es && forall e | e in es :: e.TF? ==> e == tf
    ensures FirstTimes(es) == Some(tf)
  {
    if es[0] != tf { TimesFound(es[1..], tf); }
  }

  lemma NameFirst(es: seq<Entry>, name: Bytes)
    requires es != [] && es[0] == NM(false, name)
    ensures JoinName([], es) == Some(name)
  {
    assert [] + name == name;
  }

  lemma JumbledShown(es: seq<Entry>, name: Bytes, i: InodeInfo, rec: Record, size: nat)
    requires Jumbled(es, name, i) && i.kind.IsFile? && !DirFlag(rec)
    ensures ShowsInode(InfoOf(rec, size, es), name, i, rec.start, size)
  {
    forall e | e in es ensures e == es[0] || e == Posix(i) || e == Times(i) {
      if e != es[0] { assert e in es[1..]; }
    }
    PosixFound(es, Posix(i));
    TimesFound(es, Times(i));
    NothingAfter([], es);
    NameFirst(es, name);
    ModeTells(i);
  }

  lemma SurplusOf(a: Entry, b: Entry, c: Entry, n: nat, e: Entry)
    requires n > 0
    ensures b in Surplus([a, b, c], 1, n) && c in Surplus([a, b, c], 1, n)
    ensures e in Surplus([a, b, c], 1, n) ==> e == b || e == c
  {
    var es := [a, b, c];
    assert es[1..] == [b, c] && es[2..] == [c];
    if e in Copies(n - 1, multiset([c])) { CopiesOf(n - 1, c, e); }
  }

  lemma {:induction false} CopiesOf(n: nat, c: Entry, e: Entry)
    requires e in Copies(n, multiset([c]))
    ensures e == c
  {
    if e !in multiset([c]) { CopiesOf(n - 1, c, e); }
  }

  /** What a clobbered file leads to is such a list. */
  lemma RepeatsJumbled(read: Reader, todo: seq<Entry>, name: Bytes, i: InodeInfo, n: nat) returns (es: seq<Entry>)
    requires Repeats(read, todo, [NM(false, name), Posix(i), Times(i)], 1, n)
    ensures ExpandsBy(read, todo, es) && Jumbled(es, name, i)
  {
    var all := [NM(false, name), Posix(i), Times(i)];
    var tail :| ExpandsBy(read, todo, all[..1] + tail) && multiset(tail) == Surplus(all, 1, n);
    es := all[..1] + tail;
    SurplusOf(all[0], all[1], all[2], n, all[1]);
    assert Posix(i) in multiset(tail) && Times(i) in multiset(tail);
    assert es[1..] == tail;
    forall e | e in tail ensures e == Posix(i) || e == Times(i) {
      assert e in multiset(tail);
      SurplusOf(all[0], all[1], all[2], n, e);
    }
  }

  /** Of an inode with any number of parts, a listing shows just what the inode is, from its first record. */
  lemma FirstRecordShows(iso: Bytes, it: Item, rec: Record, extensions: seq<Entry>, name: Bytes, i: InodeInfo,
      size: nat)
    requires ExtensionsOk(extensions) && ValidName(name) && name != [] && InfoOk(i)
    requires (|it.parts| > 1 ==> i.kind.IsFile?)
    requires it.entries == SystemUse(extensions, it.identifier, name, i) && it.isDir == i.kind.IsDirectory?
    requires Recorded(iso, it, rec) == true
    ensures Halts(iso, rec) && Shown(iso, rec, size).Ok?
    ensures ShowsInode(Shown(iso, rec, size).value, name, i, rec.start, size)
  {
    var room, n := RoomFor(it.identifier), |it.parts|;
    SystemUseValid(extensions, it.identifier, name, i);
    if Clobbered(room, it.entries, n) {
      ClobberedFile(room, extensions, it.identifier, name, i, n);
      var es := RepeatsJumbled(ReaderOf(iso), rec.systemUse, name, i, n);
      ShownIs(iso, rec, size, es);
      JumbledShown(es, name, i, rec, size);
    } else {
      ShownIs(iso, rec, size, it.entries);
      InodeShown(extensions, it.identifier, name, i, rec, size);
    }
  }

  // ----- an example -----

  lemma LensOf(es: seq<Entry>, a: nat, b: nat, c: nat)
    requires |es| == 3 && Len(es[0]) == a && Len(es[1]) == b && Len(es[2]) == c
    requires a + CE_LENGTH <= 211 < a + b + CE_LENGTH && a + b + c > 211
    ensures Kept(211, es) == 1
  {
    assert Continuation.Sum(es, 1) == a + Continuation.Sum(es, 0);
    assert Continuation.Sum(es, 2) == Continuation.Sum(es, 1) + b
      && Continuation.Sum(es, 3) == Continuation.Sum(es, 2) + c;
    SumPrefix(es, 2, 2);
    SumPrefix(es, 1, 1);
    assert KeptBelow(211, es, 2) == KeptBelow(211, es, 1) == 1;
  }

  /** A file of two parts whose name has 165 bytes is such a case, as the first child of its directory. */
  lemma ClobberedExample(extensions: seq<Entry>, name: Bytes, i: InodeInfo)
    requires |name| == 165 && InfoOk(i) && i.kind.IsFile?
    ensures var id := IdentifierOf(0, false);
      |id| <= MAX_IDENTIFIER && Clobbered(RoomFor(id), SystemUse(extensions, id, name, i), 2)
  {
    var id := IdentifierOf(0, false);
    assert Uvarint(0) == [0];
    Base32Head([0]);
    assert |id| == 10;
    var es := SystemUse(extensions, id, name, i);
    assert es == [NM(false, name), Posix(i), Times(i)];
    TimesValid(i);
    LensOf(es, 170, 44, 19);
    LensOf(es[1 := MARK], 170, 28, 19);
  }
}
