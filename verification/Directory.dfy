/** Directory records and directory extents: how they are written, sector by sector, and
  read back (pkg/iso9660/directoryrecord.go, pkg/iso9660/directory.go). */
module Directory {
  import opened Prelude
  import opened Sectors
  import opened Susp
  import opened Continuation

  type Uint16 = x: int | 0 <= x < 0x1_0000

  /** The recorded time stays its seven stored bytes. */
  datatype Record = Record(
    identifier: Bytes, start: Lba, length: Uint32, flags: Byte, recorded: Bytes, systemUse: seq<Entry>,
    extendedAttr: Byte, unitSize: Byte, gap: Byte, volumeId: Uint16)

  const MAX_RECORD := 255
  const MAX_IDENTIFIER := 30

  function BaseLen(identifier: Bytes): nat { 34 + |identifier| - |identifier| % 2 }

  function RecordLen(rec: Record): nat { BaseLen(rec.identifier) + Total(rec.systemUse) }

  /** What `WriteTo` accepts. */
  ghost predicate RecordOk(rec: Record) {
    |rec.identifier| <= MAX_IDENTIFIER && RecordLen(rec) <= MAX_RECORD && |rec.recorded| == 7 && AllValid(rec.systemUse)
  }

  /** The flag of a directory. */
  predicate DirFlag(rec: Record) { rec.flags / 2 % 2 == 1 }

  // ----- one record -----

  /** The 32 bytes between the length and the identifier. */
  function Fixed(rec: Record): Bytes
    requires |rec.identifier| < 0x100
  {
    Assembled(rec.extendedAttr, Both32(rec.start), Both32(rec.length), rec.recorded, [rec.flags, rec.unitSize, rec.gap],
      Both16(rec.volumeId), |rec.identifier|)
  }

  function Assembled(attr: Byte, start: Bytes, length: Bytes, recorded: Bytes, flags: Bytes, volume: Bytes,
      idLen: Byte): Bytes {
    [attr] + start + length + recorded + flags + volume + [idLen]
  }

  function IdPad(n: nat): Bytes { if n % 2 == 0 then [0] else [] }

  function EncodeRecord(rec: Record): Bytes
    requires RecordOk(rec) == true
  {
    [RecordLen(rec)] + Fixed(rec) + rec.identifier + IdPad(|rec.identifier|) + EncodeAll(rec.systemUse)
  }

  /** What follows the fixed part, given as a record without it. */
  function DecodeTail(head: Record, idLen: nat, b: Bytes): Result<Record> {
    if |b| < idLen then Err
    else
      var rest := b[idLen..];
      if idLen % 2 == 0 && (rest == [] || rest[0] != 0) then Err
      else
        var entries := Decode(if idLen % 2 == 0 then rest[1..] else rest);
        if entries.Err? then Err else Ok(head.(identifier := b[..idLen], systemUse := entries.value))
  }

  /** `DecodeDirectoryRecord`, without the length byte. */
  function DecodeRecord(b: Bytes): Result<Record> {
    if |b| < 32 then Err
    else
      var start, length, volumeId := GetBoth32(b[1..]), GetBoth32(b[9..]), GetBoth16(b[27..]);
      if start.Err? || length.Err? || volumeId.Err? then Err
      else DecodeTail(Record([], start.value, length.value, b[24], b[17..24], [], b[0], b[25], b[26], volumeId.value),
      b[31], b[32..])
  }

  lemma EncodeRecordLen(rec: Record)
    requires RecordOk(rec)
    ensures |EncodeRecord(rec)| == RecordLen(rec) && 34 <= RecordLen(rec) && EncodeRecord(rec)[0] == RecordLen(rec)
  {
    EncodeTotal(rec.systemUse);
  }

  lemma TailRoundTrip(head: Record, identifier: Bytes, systemUse: seq<Entry>)
    requires AllValid(systemUse)
    ensures DecodeTail(head, |identifier|, identifier + IdPad(|identifier|) + EncodeAll(systemUse))
      == Ok(head.(identifier := identifier, systemUse := systemUse))
  {
    TailSplit(identifier, EncodeAll(systemUse));
    RoundTrip(systemUse);
  }

  lemma TailSplit(identifier: Bytes, entries: Bytes)
    ensures var b := identifier + IdPad(|identifier|) + entries;
      var rest := b[|identifier|..];
      b[..|identifier|] == identifier
      && if |identifier| % 2 == 0 then rest != [] && rest[0] == 0 && rest[1..] == entries else rest == entries
  {
  }

  /** Where the fields of the fixed part lie. */
  lemma Cuts(attr: Byte, start: Bytes, length: Bytes, recorded: Bytes, flags: Bytes, volume: Bytes, idLen: Byte,
      tail: Bytes)
    requires |start| == 8 && |length| == 8 && |recorded| == 7 && |flags| == 3 && |volume| == 4
    ensures var b := Assembled(attr, start, length, recorded, flags, volume, idLen) + tail;
      |b| >= 32 && b[0] == attr && b[1..] == start + b[9..] && b[9..] == length + b[17..] && b[17..24] == recorded
      && b[24] == flags[0] && b[25] == flags[1] && b[26] == flags[2] && b[27..] == volume + b[31..]
        && b[31] == idLen && b[32..] == tail
  {
  }

  /** A record is read back from the bytes after its length. */
  lemma RecordRoundTrip(rec: Record)
    requires RecordOk(rec)
    ensures DecodeRecord(EncodeRecord(rec)[1..]) == Ok(rec)
  {
    var tail := rec.identifier + IdPad(|rec.identifier|) + EncodeAll(rec.systemUse);
    var b := Fixed(rec) + tail;
    Behind([RecordLen(rec)], Fixed(rec), rec.identifier, IdPad(|rec.identifier|), EncodeAll(rec.systemUse));
    FixedRoundTrip(rec, tail);
    TailRoundTrip(Head(rec), rec.identifier, rec.systemUse);
  }

  /** The record without what follows the fixed part. */
  function Head(rec: Record): Record { rec.(identifier := [], systemUse := []) }

  lemma FixedRoundTrip(rec: Record, tail: Bytes)
    requires |rec.identifier| < 0x100 && |rec.recorded| == 7
    ensures DecodeRecord(Fixed(rec) + tail) == DecodeTail(Head(rec), |rec.identifier|, tail)
  {
    var b := Fixed(rec) + tail;
    Cuts(rec.extendedAttr, Both32(rec.start), Both32(rec.length), rec.recorded, [rec.flags, rec.unitSize, rec.gap],
      Both16(rec.volumeId), |rec.identifier|, tail);
    Both32RoundTrip(rec.start, b[9..]);
    Both32RoundTrip(rec.length, b[17..]);
    Both16RoundTrip(rec.volumeId, b[31..]);
  }

  /** What is decoded as a record is exactly what starts like one, with entries behind. */
  lemma DecodesExactly(b: Bytes, rec: Record)
    ensures DecodeRecord(b) == Ok(rec) <==>
      |rec.recorded| == 7 && |rec.identifier| < 0x100 && Start(rec) <= b
      && Decode(b[|Start(rec)|..]) == Ok(rec.systemUse)
  {
    if |rec.recorded| == 7 && |rec.identifier| < 0x100 && Start(rec) <= b {
      var tail := b[32..];
      assert Fixed(rec) <= b && b == Fixed(rec) + tail;
      FixedRoundTrip(rec, tail);
      TailDecodes(Head(rec), rec, tail);
      assert b[|Start(rec)|..] == tail[|rec.identifier| + |IdPad(|rec.identifier|)|..];
    }
    if DecodeRecord(b) == Ok(rec) {
      DecodedStart(b, rec);
    }
  }

  /** A record's bytes after its length, up to its entries. */
  function Start(rec: Record): Bytes
    requires |rec.identifier| < 0x100
  {
    Fixed(rec) + (rec.identifier + IdPad(|rec.identifier|))
  }

  lemma TailDecodes(head: Record, rec: Record, b: Bytes)
    requires head == Head(rec) && rec.identifier + IdPad(|rec.identifier|) <= b
    ensures DecodeTail(head, |rec.identifier|, b) == Ok(rec)
      <==> Decode(b[|rec.identifier| + |IdPad(|rec.identifier|)|..]) == Ok(rec.systemUse)
  {
    var id, pad := rec.identifier, IdPad(|rec.identifier|);
    var entries := b[|id + pad|..];
    assert b == id + pad + entries;
    TailSplit(id, entries);
  }

  lemma DecodedStart(b: Bytes, rec: Record)
    requires DecodeRecord(b) == Ok(rec)
    ensures |rec.recorded| == 7 && |rec.identifier| < 0x100 && Start(rec) <= b
  {
    Both32Only(b[1..], rec.start);
    Both32Only(b[9..], rec.length);
    Both16Only(b[27..], rec.volumeId);
    assert |rec.identifier| == b[31];
    assert rec.identifier + IdPad(|rec.identifier|) <= b[32..];
    FixedIs(b, rec);
  }

  lemma FixedIs(b: Bytes, rec: Record)
    requires |b| >= 32 && |rec.identifier| < 0x100 && b[0] == rec.extendedAttr && Both32(rec.start) <= b[1..]
    requires Both32(rec.length) <= b[9..] && b[17..24] == rec.recorded
    requires b[24..27] == [rec.flags, rec.unitSize, rec.gap]
    requires Both16(rec.volumeId) <= b[27..] && b[31] == |rec.identifier|
    ensures Fixed(rec) == b[..32]
  {
    assert b[1..9] == b[1..][..8] == Both32(rec.start);
    assert b[9..17] == b[9..][..8] == Both32(rec.length);
    assert b[27..31] == b[27..][..4] == Both16(rec.volumeId);
    assert b[..32] == [b[0]] + b[1..9] + b[9..17] + b[17..24] + b[24..27] + b[27..31] + [b[31]];
  }

  lemma Behind(a: Bytes, b: Bytes, c: Bytes, d: Bytes, e: Bytes)
    requires |a| == 1
    ensures (a + b + c + d + e)[1..] == b + (c + d + e)
  {
  }
}
