/** System-use entries (SUSP 1.12 and RRIP 1.12): what each is, how many bytes it
  declares, how it is written (pkg/iso9660/susp, pkg/iso9660/rrip) and how a list
  is read back (pkg/iso9660/directoryrecord.go). */
module Susp {
  import opened Prelude

  /** Recorded times stay their stored bytes: 7 in the short form, 17 in the long one. */
  datatype Entry =
    | SP(skip: Byte)
    | ST
    | CE(start: Uint32, off: Uint32, len: Uint32)
    | ER(version: Byte, id: Bytes, desc: Bytes, src: Bytes)
    | NM(cont: bool, name: Bytes)
    | PX(mode: Uint32, nlink: Uint32, uid: Uint32, gid: Uint32, ino: Uint32)
    | SL(cont: bool, flags: LinkFlags, text: Bytes)
    | TF(long: bool, stamps: seq<Option<Bytes>>)

  const CE_LENGTH := 28

  // ----- numbers in both byte orders -----

  function Both16(v: nat): (r: Bytes)
    requires v < 0x1_0000
    ensures |r| == 4
  {
    [v % 0x100, v / 0x100, v / 0x100, v % 0x100]
  }

  function Both32(v: Uint32): (r: Bytes)
    ensures |r| == 8
  {
    var a, b, c, d := v % 0x100, v / 0x100 % 0x100, v / 0x1_0000 % 0x100, v / 0x100_0000;
    [a, b, c, d, d, c, b, a]
  }

  /** `getBothUint16` at the start of `b`: both byte orders must agree. */
  function GetBoth16(b: Bytes): (r: Result<nat>)
    ensures r.Ok? ==> r.value < 0x1_0000
  {
    if |b| < 4 || b[0] != b[3] || b[1] != b[2] then Err else Ok(b[0] as int + 0x100 * b[1] as int)
  }

  function GetBoth32(b: Bytes): (r: Result<Uint32>) {
    if |b| < 8 || b[0] != b[7] || b[1] != b[6] || b[2] != b[5] || b[3] != b[4] then Err
    else Ok(b[0] as int + 0x100 * b[1] as int + 0x1_0000 * b[2] as int + 0x100_0000 * b[3] as int)
  }

  lemma Both16RoundTrip(v: nat, rest: Bytes)
    requires v < 0x1_0000
    ensures GetBoth16(Both16(v) + rest) == Ok(v) && (Both16(v) + rest)[4..] == rest
  {
  }

  lemma Both32RoundTrip(v: Uint32, rest: Bytes)
    ensures GetBoth32(Both32(v) + rest) == Ok(v) && (Both32(v) + rest)[8..] == rest
  {
    var b := Both32(v) + rest;
    Digits(v);
    assert b[0] == v % 0x100 && b[1] == v / 0x100 % 0x100 && b[2] == v / 0x1_0000 % 0x100 && b[3] == v / 0x100_0000;
  }

  lemma Digits(v: Uint32)
    ensures v == v % 0x100 + 0x100 * (v / 0x100 % 0x100) + 0x1_0000 * (v / 0x1_0000 % 0x100)
      + 0x100_0000 * (v / 0x100_0000)
  {
  }

  /** Nothing but a number in both byte orders is taken for one. */
  lemma Both16Only(b: Bytes, v: nat)
    requires GetBoth16(b) == Ok(v)
    ensures Both16(v) <= b
  {
  }

  lemma Both32Only(b: Bytes, v: Uint32)
    requires GetBoth32(b) == Ok(v)
    ensures Both32(v) <= b
  {
    DigitsBack(b[0], b[1], b[2], b[3]);
    assert b[..8] == Both32(v);
  }

  lemma DigitsBack(a: Byte, b: Byte, c: Byte, d: Byte)
    ensures var v := a + 0x100 * b + 0x1_0000 * c + 0x100_0000 * d;
      v % 0x100 == a && v / 0x100 % 0x100 == b && v / 0x1_0000 % 0x100 == c && v / 0x100_0000 == d
  {
    var v := a + 0x100 * b + 0x1_0000 * c + 0x100_0000 * d;
    assert v / 0x100 == b + 0x100 * c + 0x1_0000 * d;
    assert v / 0x1_0000 == c + 0x100 * d;
  }

  // ----- writing -----

  function StampSize(long: bool): nat { if long then 17 else 7 }

  function StampsLen(long: bool, stamps: seq<Option<Bytes>>): nat {
    if stamps == [] then 0 else (if stamps[0].Some? then StampSize(long) else 0) + StampsLen(long, stamps[1..])
  }

  function StampBytes(stamps: seq<Option<Bytes>>): Bytes {
    if stamps == [] then [] else (if stamps[0].Some? then stamps[0].value else []) + StampBytes(stamps[1..])
  }

  /** One bit per time, the first in the lowest bit. */
  function StampFlags(stamps: seq<Option<Bytes>>): nat {
    if stamps == [] then 0 else (if stamps[0].Some? then 1 else 0) + 2 * StampFlags(stamps[1..])
  }

  /** The flag byte of a link component: four named bits and the unused rest. */
  datatype LinkFlags = LinkFlags(continued: bool, current: bool, parent: bool, root: bool, unused: Nibble)
  {
    /** A component that stands for `.`, `..` or the root and carries no text. */
    predicate Special() { current || parent || root }
  }

  type Nibble = x: int | 0 <= x < 16

  const PLAIN := LinkFlags(false, false, false, false, 0)
  const SL_CONTINUE := PLAIN.(continued := true)
  const SL_CURRENT := PLAIN.(current := true)
  const SL_PARENT := PLAIN.(parent := true)
  const SL_ROOT := PLAIN.(root := true)

  function FlagByte(f: LinkFlags): Byte {
    Flag(f.continued) + 2 * Flag(f.current) + 4 * Flag(f.parent) + 8 * Flag(f.root) + 16 * f.unused
  }

  function FlagsOf(b: Byte): LinkFlags {
    LinkFlags(b % 2 == 1, b / 2 % 2 == 1, b / 4 % 2 == 1, b / 8 % 2 == 1, b / 16)
  }

  lemma FlagsRoundTrip(f: LinkFlags)
    ensures FlagsOf(FlagByte(f)) == f
  {
    var b := FlagByte(f);
    assert b / 16 == f.unused;
    assert b / 8 == Flag(f.root) + 2 * f.unused;
    assert b / 4 == Flag(f.parent) + 2 * (b / 8);
    assert b / 2 == Flag(f.current) + 2 * (b / 4);
    assert b == Flag(f.continued) + 2 * (b / 2);
  }

  /** The declared length of an entry. */
  function Len(e: Entry): nat {
    match e
    case SP(_) => 7
    case ST => 4
    case CE(_, _, _) => CE_LENGTH
    case ER(_, id, desc, src) => 8 + |id| + |desc| + |src|
    case NM(_, name) => 5 + |name|
    case PX(_, _, _, _, _) => 44
    case SL(_, flags, text) => if flags.Special() then 7 else 7 + |text|
    case TF(long, stamps) => 5 + StampsLen(long, stamps)
  }

  /** A byte that may stand in a Rock Ridge name. */
  predicate Printable(b: Byte) { b >= 0x20 && b != 0x7F && b != 0x2F }

  predicate ValidName(name: Bytes) { forall b | b in name :: Printable(b) }

  /** The entries the writers can produce. */
  ghost predicate Valid(e: Entry) {
    Len(e) <= 0xFF &&
    match e
    case NM(_, name) => ValidName(name)
    case SL(_, flags, text) => flags.Special() ==> text == []
    case TF(long, stamps) => |stamps| == 7 && forall i | 0 <= i < 7 :: stamps[i].Some? ==>
      |stamps[i].value| == StampSize(long)
    case _ => true
  }

  function Flag(b: bool): Byte { if b then 1 else 0 }

  /** What follows the version byte. */
  function Payload(e: Entry): Bytes
    requires Valid(e) == true
  {
    match e
    case SP(skip) => [0xBE, 0xEF, skip]
    case ST => []
    case CE(start, off, len) => Both32(start) + Both32(off) + Both32(len)
    case ER(version, id, desc, src) => [|id|, |desc|, |src|, version] + id + desc + src
    case NM(cont, name) => [Flag(cont)] + name
    case PX(mode, nlink, uid, gid, ino) => Both32(mode) + Both32(nlink) + Both32(uid) + Both32(gid) + Both32(ino)
    case SL(cont, flags, text) => [Flag(cont), FlagByte(flags), |text|] + text
    case TF(long, stamps) => FlagsBound(stamps); [StampFlags(stamps) + 128 * Flag(long)] + StampBytes(stamps)
  }

  function Tag(e: Entry): (Byte, Byte) {
    match e
    case SP(_) => (0x53, 0x50)
    case ST => (0x53, 0x54)
    case CE(_, _, _) => (0x43, 0x45)
    case ER(_, _, _, _) => (0x45, 0x52)
    case NM(_, _) => (0x4E, 0x4D)
    case PX(_, _, _, _, _) => (0x50, 0x58)
    case SL(_, _, _) => (0x53, 0x4C)
    case TF(_, _) => (0x54, 0x46)
  }

  function Encode(e: Entry): Bytes
    requires Valid(e) == true
  {
    [Tag(e).0, Tag(e).1, Len(e), 1] + Payload(e)
  }

  lemma {:induction false} FlagsBound(stamps: seq<Option<Bytes>>)
    requires |stamps| <= 7
    ensures StampFlags(stamps) < 128
  {
    FlagsPower(stamps, 7);
  }

  ghost function Pow2(n: nat): (p: nat)
    ensures p > 0
  {
    if n == 0 then 1 else 2 * Pow2(n - 1)
  }

  lemma {:induction false} FlagsPower(stamps: seq<Option<Bytes>>, n: nat)
    requires |stamps| <= n
    ensures StampFlags(stamps) < Pow2(n)
  {
    if stamps != [] { FlagsPower(stamps[1..], n - 1); }
  }

  lemma {:induction false} StampBytesLen(long: bool, stamps: seq<Option<Bytes>>)
    requires forall i | 0 <= i < |stamps| :: stamps[i].Some? ==> |stamps[i].value| == StampSize(long)
    ensures |StampBytes(stamps)| == StampsLen(long, stamps)
  {
    if stamps != [] { StampBytesLen(long, stamps[1..]); }
  }

  /** The declared length equals the bytes written. */
  lemma EncodeLen(e: Entry)
    requires Valid(e)
    ensures |Encode(e)| == Len(e) && 4 <= Len(e)
  {
    if e.TF? { StampBytesLen(e.long, e.stamps); }
  }

  // ----- reading -----

  /** The times whose bits are set in `flags`, in order. */
  function ReadStamps(flags: nat, count: nat, size: nat, b: Bytes): Result<seq<Option<Bytes>>> {
    if count == 0 then Ok([])
    else if flags % 2 == 0 then
      var rest := ReadStamps(flags / 2, count - 1, size, b);
      if rest.Ok? then Ok([None] + rest.value) else Err
    else if |b| < size then Err
    else
      var rest := ReadStamps(flags / 2, count - 1, size, b[size..]);
      if rest.Ok? then Ok([Some(b[..size])] + rest.value) else Err
  }

  /** Five numbers in both byte orders. */
  function ReadPX(b: Bytes): Result<Entry> {
    if |b| < 40 then Err
    else
      var mode, nlink, uid := GetBoth32(b), GetBoth32(b[8..]), GetBoth32(b[16..]);
      var gid, ino := GetBoth32(b[24..]), GetBoth32(b[32..]);
      if mode.Ok? && nlink.Ok? && uid.Ok? && gid.Ok? && ino.Ok?
      then Ok(PX(mode.value, nlink.value, uid.value, gid.value, ino.value)) else Err
  }

  function ReadCE(b: Bytes): Result<Entry> {
    if |b| < 24 then Err
    else
      var start, off, len := GetBoth32(b), GetBoth32(b[8..]), GetBoth32(b[16..]);
      if start.Ok? && off.Ok? && len.Ok? then Ok(CE(start.value, off.value, len.value)) else Err
  }

  function ReadER(b: Bytes): Result<Entry> {
    if |b| < 4 then Err
    else
      var d := 4 + b[0] as int;
      var s := d + b[1] as int;
      var end := s + b[2] as int;
      if |b| < end then Err else Ok(ER(b[3], b[4..d], b[d..s], b[s..end]))
  }

  /** The per-tag decoders, after the version byte; no entry for an unknown tag. */
  function ReadPayload(tag: (Byte, Byte), b: Bytes): Result<Option<Entry>> {
    if tag == (0x53, 0x50) then
      if |b| < 3 || b[0] != 0xBE || b[1] != 0xEF then Err else Ok(Some(SP(b[2])))
    else if tag == (0x53, 0x54) then Ok(Some(ST))
    else if tag == (0x43, 0x45) then Known(ReadCE(b))
    else if tag == (0x45, 0x52) then Known(ReadER(b))
    else if tag == (0x4E, 0x4D) then
      if |b| < 1 || !ValidName(b[1..]) || |b| > 251 then Err else Ok(Some(NM(b[0] % 2 == 1, b[1..])))
    else if tag == (0x50, 0x58) then Known(ReadPX(b))
    else if tag == (0x53, 0x4C) then
      if |b| < 3 || |b| != 3 + b[2] as int then Err else Ok(Some(SL(b[0] % 2 == 1, FlagsOf(b[1]), b[3..])))
    else if tag == (0x54, 0x46) then
      if |b| < 1 then Err
      else
        var long := b[0] >= 128;
        var stamps := ReadStamps(b[0] % 128, 7, StampSize(long), b[1..]);
        if stamps.Ok? then Ok(Some(TF(long, stamps.value))) else Err
    else Ok(None)
  }

  function Known(r: Result<Entry>): Result<Option<Entry>> {
    if r.Ok? then Ok(Some(r.value)) else Err
  }

  predicate KnownTag(tag: (Byte, Byte)) {
    tag == (0x53, 0x50) || tag == (0x53, 0x54) || tag == (0x43, 0x45) || tag == (0x45, 0x52)
    || tag == (0x4E, 0x4D) || tag == (0x50, 0x58) || tag == (0x53, 0x4C) || tag == (0x54, 0x46)
  }

  /** One entry at the start of `b`: its content, if the tag is known, and how many bytes it takes. */
  function ReadEntry(b: Bytes): (r: Result<(Option<Entry>, nat)>)
    requires b != []
    ensures r.Ok? ==> 3 <= r.value.1 <= |b|
  {
    if |b| < 3 then Err
    else
      var end := if b[2] <= 3 then 3 else if b[2] <= |b| then b[2] else |b|;
      var body := b[3..end];
      if !KnownTag((b[0], b[1])) then Ok((None, end))
      else if body == [] || body[0] != 1 then Err
      else
        var entry := ReadPayload((b[0], b[1]), body[1..]);
        if entry.Ok? then Ok((entry.value, end)) else Err
  }

  function OptSeq<T>(o: Option<T>): seq<T> { if o.Some? then [o.value] else [] }

  /** The list of entries that `b` spells. */
  function Decode(b: Bytes): Result<seq<Entry>>
    decreases |b|
  {
    if b == [] then Ok([])
    else
      var first := ReadEntry(b);
      if first.Err? then Err
      else
        var rest := Decode(b[first.value.1..]);
        Prepend(OptSeq(first.value.0), rest)
  }

  function Prepend(entries: seq<Entry>, r: Result<seq<Entry>>): Result<seq<Entry>> {
    if r.Ok? then Ok(entries + r.value) else Err
  }

  lemma PrependEmpty(r: Result<seq<Entry>>)
    ensures Prepend([], r) == r
  {
    if r.Ok? { assert [] + r.value == r.value; }
  }

  lemma PrependTwice(a: seq<Entry>, b: seq<Entry>, r: Result<seq<Entry>>)
    ensures Prepend(a, Prepend(b, r)) == Prepend(a + b, r)
  {
    if r.Ok? { assert a + (b + r.value) == (a + b) + r.value; }
  }

  /** The loop of `DecodeSystemUseEntries`. */
  method DecodeSystemUseEntries(b: Bytes) returns (r: Result<seq<Entry>>)
    ensures r == Decode(b)
  {
    var entries: seq<Entry> := [];
    var pos := 0;
    assert b[0..] == b;
    PrependEmpty(Decode(b));
    while pos < |b|
      invariant 0 <= pos <= |b|
      invariant Decode(b) == Prepend(entries, Decode(b[pos..]))
      decreases |b| - pos
    {
      var first := ReadEntry(b[pos..]);
      if first.Err? {
        return Err;
      }
      ghost var rest := Decode(b[pos..][first.value.1..]);
      assert b[pos..][first.value.1..] == b[pos + first.value.1..];
      PrependTwice(entries, OptSeq(first.value.0), rest);
      if first.value.0.Some? {
        entries := entries + [first.value.0.value];
      } else {
        assert entries + OptSeq(first.value.0) == entries;
      }
      pos := pos + first.value.1;
    }
    assert entries + [] == entries;
    r := Ok(entries);
  }

  // ----- reading what was written -----

  lemma {:induction false} StampsRoundTrip(long: bool, stamps: seq<Option<Bytes>>)
    requires forall i | 0 <= i < |stamps| :: stamps[i].Some? ==> |stamps[i].value| == StampSize(long)
    ensures ReadStamps(StampFlags(stamps), |stamps|, StampSize(long), StampBytes(stamps)) == Ok(stamps)
  {
    if stamps != [] {
      StampsRoundTrip(long, stamps[1..]);
      var b, f := StampBytes(stamps), StampFlags(stamps[1..]);
      assert (1 + 2 * f) % 2 == 1 && (1 + 2 * f) / 2 == f && (2 * f) % 2 == 0 && (2 * f) / 2 == f;
      assert stamps == [stamps[0]] + stamps[1..];
      if stamps[0].Some? {
        assert b[..StampSize(long)] == stamps[0].value && b[StampSize(long)..] == StampBytes(stamps[1..]);
      } else {
        assert b == StampBytes(stamps[1..]);
      }
    }
  }

  lemma PXRoundTrip(e: Entry)
    requires e.PX?
    ensures ReadPX(Payload(e)) == Ok(e)
  {
    var b := Payload(e);
    var b1, b2, b3, b4 := Both32(e.nlink) + (Both32(e.uid) + (Both32(e.gid) + Both32(e.ino))),
      Both32(e.uid) + (Both32(e.gid) + Both32(e.ino)), Both32(e.gid) + Both32(e.ino), Both32(e.ino) + [];
    Both32RoundTrip(e.mode, b1);
    Both32RoundTrip(e.nlink, b2);
    Both32RoundTrip(e.uid, b3);
    Both32RoundTrip(e.gid, b4);
    Both32RoundTrip(e.ino, []);
    assert b == Both32(e.mode) + b1 && b[8..] == b1 && b[16..] == b2 && b[24..] == b3 && b[32..] == b4;
  }

  lemma CERoundTrip(e: Entry)
    requires e.CE?
    ensures ReadCE(Payload(e)) == Ok(e)
  {
    var b := Payload(e);
    var b1, b2 := Both32(e.off) + Both32(e.len), Both32(e.len) + [];
    Both32RoundTrip(e.start, b1);
    Both32RoundTrip(e.off, b2);
    Both32RoundTrip(e.len, []);
    assert b == Both32(e.start) + b1 && b[8..] == b1 && b[16..] == b2;
  }

  lemma ERRoundTrip(e: Entry)
    requires e.ER? && Valid(e)
    ensures ReadER(Payload(e)) == Ok(e)
  {
    var b := Payload(e);
    var d, s := 4 + |e.id|, 4 + |e.id| + |e.desc|;
    assert b[4..d] == e.id && b[d..s] == e.desc && b[s..s + |e.src|] == e.src;
  }

  lemma TFRoundTrip(e: Entry)
    requires e.TF? && Valid(e)
    ensures ReadPayload(Tag(e), Payload(e)) == Ok(Some(e))
  {
    FlagsBound(e.stamps);
    StampsRoundTrip(e.long, e.stamps);
    assert Payload(e)[1..] == StampBytes(e.stamps);
  }

  lemma NMRoundTrip(e: Entry)
    requires e.NM? && Valid(e)
    ensures ReadPayload(Tag(e), Payload(e)) == Ok(Some(e))
  {
    assert Payload(e)[1..] == e.name;
  }

  lemma SLRoundTrip(e: Entry)
    requires e.SL? && Valid(e)
    ensures ReadPayload(Tag(e), Payload(e)) == Ok(Some(e))
  {
    FlagsRoundTrip(e.flags);
    assert Payload(e)[3..] == e.text;
  }

  lemma PayloadRoundTrip(e: Entry)
    requires Valid(e)
    ensures ReadPayload(Tag(e), Payload(e)) == Ok(Some(e))
  {
    match e
    case CE(_, _, _) => CERoundTrip(e);
    case ER(_, _, _, _) => ERRoundTrip(e);
    case PX(_, _, _, _, _) => PXRoundTrip(e);
    case TF(_, _) => TFRoundTrip(e);
    case NM(_, _) => NMRoundTrip(e);
    case SL(_, _, _) => SLRoundTrip(e);
    case _ =>
  }

  /** A written entry followed by anything reads back as itself and takes its declared length. */
  lemma EntryRoundTrip(e: Entry, rest: Bytes)
    requires Valid(e)
    ensures var b := Encode(e) + rest; ReadEntry(b) == Ok((Some(e), Len(e))) && b[Len(e)..] == rest
  {
    EncodeLen(e);
    PayloadRoundTrip(e);
    var b := Encode(e) + rest;
    assert b[3..Len(e)] == [1] + Payload(e) && ([1] + Payload(e))[1..] == Payload(e);
  }

  ghost predicate AllValid(es: seq<Entry>) { forall e | e in es :: Valid(e) }

  function EncodeAll(es: seq<Entry>): Bytes
    requires AllValid(es) == true
  {
    if es == [] then [] else Encode(es[0]) + EncodeAll(es[1..])
  }

  /** Any list of entries is read back as written. */
  lemma {:induction false} RoundTrip(es: seq<Entry>)
    requires AllValid(es)
    ensures Decode(EncodeAll(es)) == Ok(es)
  {
    if es != [] {
      RoundTrip(es[1..]);
      DecodeHead(es[0], EncodeAll(es[1..]));
      assert es == [es[0]] + es[1..];
    }
  }

  lemma DecodeHead(e: Entry, rest: Bytes)
    requires Valid(e)
    ensures Decode(Encode(e) + rest) == Prepend([e], Decode(rest))
  {
    EntryRoundTrip(e, rest);
    EncodeLen(e);
  }

  // ----- reading nothing else -----

  /** What each decoder takes for an entry: reserved flags and bytes behind the fields are ignored. */
  ghost predicate Spelled(e: Entry, b: Bytes) {
    match e
    case SP(skip) => [0xBE, 0xEF, skip] <= b
    case ST => true
    case CE(start, off, len) => Both32(start) + (Both32(off) + Both32(len)) <= b
    case ER(version, id, desc, src) =>
      |id| < 0x100 && |desc| < 0x100 && |src| < 0x100
      && [|id|, |desc|, |src|, version] + id + desc + src <= b
    case NM(cont, name) => 0 < |b| <= 251 && (b[0] % 2 == 1 <==> cont) && b[1..] == name && ValidName(name)
    case PX(mode, nlink, uid, gid, ino) =>
      Both32(mode) + (Both32(nlink) + (Both32(uid) + (Both32(gid) + Both32(ino)))) <= b
    case SL(cont, flags, text) =>
      b != [] && (b[0] % 2 == 1 <==> cont) && |text| < 0x100 && b[1..] == [FlagByte(flags), |text|] + text
    case TF(long, stamps) =>
      |stamps| == 7 && Sized(stamps, StampSize(long)) && b != []
      && b[0] == StampFlags(stamps) + 128 * Flag(long) && StampBytes(stamps) <= b[1..]
  }

  ghost predicate Sized(stamps: seq<Option<Bytes>>, size: nat) {
    forall i | 0 <= i < |stamps| :: stamps[i].Some? ==> |stamps[i].value| == size
  }

  /** Nothing is decoded as an entry but bytes under its tag that spell it. */
  lemma EntryExactly(tag: (Byte, Byte), b: Bytes, e: Entry)
    ensures ReadPayload(tag, b) == Ok(Some(e)) <==> tag == Tag(e) && Spelled(e, b)
  {
    if tag == Tag(e) {
      match e
      case CE(_, _, _) => CEExactly(b, e);
      case ER(_, _, _, _) => ERExactly(b, e);
      case PX(_, _, _, _, _) => PXExactly(b, e);
      case SL(_, _, _) => SLExactly(b, e);
      case TF(_, _) => TFExactly(b, e);
      case _ =>
    }
  }

  /** A number, and what lies behind it. */
  lemma NumberAt(b: Bytes, v: Uint32, more: Bytes)
    ensures Both32(v) + more <= b <==> GetBoth32(b) == Ok(v) && more <= b[8..]
  {
    if Both32(v) + more <= b {
      Both32RoundTrip(v, b[8..]);
      assert b == Both32(v) + b[8..];
    }
    if GetBoth32(b) == Ok(v) && more <= b[8..] {
      Both32Only(b, v);
      assert b == Both32(v) + (more + b[8..][|more|..]);
    }
  }

  lemma CEExactly(b: Bytes, e: Entry)
    requires e.CE?
    ensures ReadCE(b) == Ok(e) <==> Spelled(e, b)
  {
    NumberAt(b, e.start, Both32(e.off) + Both32(e.len));
    if |b| >= 8 { NumberAt(b[8..], e.off, Both32(e.len)); }
    if |b| >= 16 {
      assert b[8..][8..] == b[16..];
      NumberAt(b[16..], e.len, []);
      assert Both32(e.len) + [] == Both32(e.len);
    }
  }

  lemma PXExactly(b: Bytes, e: Entry)
    requires e.PX?
    ensures ReadPX(b) == Ok(e) <==> Spelled(e, b)
  {
    var b4 := Both32(e.ino);
    var b3 := Both32(e.gid) + b4;
    var b2 := Both32(e.uid) + b3;
    NumberAt(b, e.mode, Both32(e.nlink) + b2);
    if |b| >= 8 { NumberAt(b[8..], e.nlink, b2); }
    if |b| >= 40 {
      assert b[8..][8..] == b[16..] && b[16..][8..] == b[24..] && b[24..][8..] == b[32..];
      NumberAt(b[16..], e.uid, b3);
      NumberAt(b[24..], e.gid, b4);
      NumberAt(b[32..], e.ino, []);
      assert b4 + [] == b4;
    }
  }

  lemma ERExactly(b: Bytes, e: Entry)
    requires e.ER?
    ensures ReadER(b) == Ok(e) <==> Spelled(e, b)
  {
    if Spelled(e, b) {
      var d, s := 4 + |e.id|, 4 + |e.id| + |e.desc|;
      var spelled := [|e.id|, |e.desc|, |e.src|, e.version] + e.id + e.desc + e.src;
      assert b[..|spelled|] == spelled;
      assert b[0] == |e.id| && b[1] == |e.desc| && b[2] == |e.src| && b[3] == e.version;
      assert b[4..d] == spelled[4..d] == e.id && b[d..s] == spelled[d..s] == e.desc;
      assert b[s..s + |e.src|] == spelled[s..s + |e.src|] == e.src;
    }
    if ReadER(b) == Ok(e) {
      var d, s := 4 + |e.id|, 4 + |e.id| + |e.desc|;
      assert b == [|e.id|, |e.desc|, |e.src|, e.version] + e.id + e.desc + e.src + b[s + |e.src|..];
    }
  }

  lemma SLExactly(b: Bytes, e: Entry)
    requires e.SL?
    ensures ReadPayload(Tag(e), b) == Ok(Some(e)) <==> Spelled(e, b)
  {
    FlagsRoundTrip(e.flags);
    if Spelled(e, b) {
      assert b[1] == b[1..][0] == FlagByte(e.flags) && b[2] == b[1..][1] == |e.text|;
      assert b[3..] == b[1..][2..] == e.text;
    }
    if |b| >= 3 {
      assert b[1..] == [b[1], b[2]] + b[3..];
      FlagsBack(b[1]);
    }
  }

  lemma FlagsBack(b: Byte)
    ensures FlagByte(FlagsOf(b)) == b
  {
    assert b == Flag(b % 2 == 1) + 2 * (b / 2);
    assert b / 2 == Flag(b / 2 % 2 == 1) + 2 * (b / 4);
    assert b / 4 == Flag(b / 4 % 2 == 1) + 2 * (b / 8);
    assert b / 8 == Flag(b / 8 % 2 == 1) + 2 * (b / 16);
  }

  lemma TFExactly(b: Bytes, e: Entry)
    requires e.TF?
    ensures ReadPayload(Tag(e), b) == Ok(Some(e)) <==> Spelled(e, b)
  {
    if b != [] {
      if |e.stamps| <= 7 { FlagsBound(e.stamps); }
      StampsExactly(b[0] % 128, 7, StampSize(e.long), b[1..], e.stamps);
    }
  }

  lemma {:induction false} StampsExactly(flags: nat, count: nat, size: nat, b: Bytes, stamps: seq<Option<Bytes>>)
    requires flags < Pow2(count)
    ensures ReadStamps(flags, count, size, b) == Ok(stamps) <==>
      |stamps| == count && StampFlags(stamps) == flags && Sized(stamps, size) && StampBytes(stamps) <= b
  {
    if count > 0 && stamps != [] {
      var rest := if flags % 2 == 0 || |b| < size then b else b[size..];
      StampsExactly(flags / 2, count - 1, size, rest, stamps[1..]);
      assert stamps == [stamps[0]] + stamps[1..];
      FirstSized(size, stamps);
      FirstFlag(flags, stamps);
      if stamps[0].Some? { FirstBytes(b, stamps); }
    }
  }

  lemma FirstFlag(flags: nat, stamps: seq<Option<Bytes>>)
    requires stamps != []
    ensures StampFlags(stamps) == flags <==>
      (stamps[0].Some? <==> flags % 2 == 1) && StampFlags(stamps[1..]) == flags / 2
  {
    Halved(if stamps[0].Some? then 1 else 0, StampFlags(stamps[1..]), flags);
  }

  lemma Halved(low: nat, high: nat, flags: nat)
    requires low < 2
    ensures low + 2 * high == flags <==> low == flags % 2 && high == flags / 2
  {
  }

  lemma FirstBytes(b: Bytes, stamps: seq<Option<Bytes>>)
    requires stamps != [] && stamps[0].Some?
    ensures var x := stamps[0].value;
      StampBytes(stamps) <= b <==> |b| >= |x| && b[..|x|] == x && StampBytes(stamps[1..]) <= b[|x|..]
  {
    PrefixCut(stamps[0].value, StampBytes(stamps[1..]), b);
  }

  lemma FirstSized(size: nat, stamps: seq<Option<Bytes>>)
    requires stamps != []
    ensures Sized(stamps, size) <==> (stamps[0].Some? ==> |stamps[0].value| == size) && Sized(stamps[1..], size)
  {
    if (stamps[0].Some? ==> |stamps[0].value| == size) && Sized(stamps[1..], size) {
      forall i | 0 <= i < |stamps| && stamps[i].Some? ensures |stamps[i].value| == size {
        if i > 0 { assert stamps[1..][i - 1] == stamps[i]; }
      }
    }
  }

  lemma PrefixCut(x: Bytes, y: Bytes, b: Bytes)
    ensures x + y <= b <==> |b| >= |x| && b[..|x|] == x && y <= b[|x|..]
  {
    if x + y <= b { assert b[..|x + y|] == x + y && b[|x|..][..|y|] == b[|x|..|x + y|]; }
    if |b| >= |x| && b[..|x|] == x && y <= b[|x|..] { assert b == x + (y + b[|x|..][|y|..]); }
  }

  /** Flags and sizes as RRIP 1.12 has them, sections 4.1.3.1 and 4.1.6. */
  lemma StoredForms()
    ensures FlagByte(PLAIN) == 0 && FlagByte(SL_CONTINUE) == 1 && FlagByte(SL_CURRENT) == 2
    ensures FlagByte(SL_PARENT) == 4 && FlagByte(SL_ROOT) == 8
    ensures StampSize(false) == 7 && StampSize(true) == 17
  {
  }
}
