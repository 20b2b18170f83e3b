/** Directory extents (pkg/iso9660/directory.go). */
module DirectoryExtent {
  import opened Prelude
  import opened Sectors
  import opened Susp
  import opened Directory
  import opened RecordScan
  import opened Inode

  ghost predicate AllOk(recs: seq<Record>) { forall rec | rec in recs :: RecordOk(rec) }

  function Pieces(recs: seq<Record>): (r: seq<Bytes>)
    requires AllOk(recs) == true
    ensures |r| == |recs| && forall i | 0 <= i < |r| :: r[i] == EncodeRecord(recs[i])
  {
    seq(|recs|, i requires 0 <= i < |recs| => EncodeRecord(recs[i]))
  }

  /** `Directory.WriteTo`; an error also stands for the panic on a record of more than 255 bytes. */
  method WriteTo(recs: seq<Record>) returns (r: Result<Bytes>)
    requires forall rec | rec in recs :: |rec.recorded| == 7 && AllValid(rec.systemUse)
    ensures r.Ok? <==> AllOk(recs) && |Laid(0, Pieces(recs))| <= MAX_PART
    ensures r.Ok? ==> r.value == Laid(0, Pieces(recs))
  {
    var w: Bytes := [];
    for i := 0 to |recs|
      invariant AllOk(recs[..i]) && w == Laid(0, Pieces(recs[..i]))
    {
      var rec := recs[i];
      assert rec in recs;
      var capacity := 2048 - |w| % 2048;
      ghost var before := w;
      if RecordLen(rec) > 2048 {
        assert !RecordOk(rec);
        return Err;
      }
      if RecordLen(rec) > capacity {
        w := w + Zeros(capacity);
      }
      if |rec.identifier| > MAX_IDENTIFIER || RecordLen(rec) > MAX_RECORD {
        assert !RecordOk(rec);
        return Err;
      }
      w := w + EncodeRecord(rec);
      RoomIs(|before|);
      WroteOne(recs, i, before, w);
    }
    assert recs[..|recs|] == recs;
    if |w| > MAX_PART {
      return Err;
    }
    r := Ok(w);
  }

  lemma WroteOne(recs: seq<Record>, i: nat, before: Bytes, w: Bytes)
    requires i < |recs| && AllOk(recs[..i]) && RecordOk(recs[i])
    requires before == Laid(0, Pieces(recs[..i]))
    requires var gap := Gap(|before|, RecordLen(recs[i]));
      w == (if gap > 0 then before + Zeros(gap) else before) + EncodeRecord(recs[i])
    ensures AllOk(recs[..i + 1]) && w == Laid(0, Pieces(recs[..i + 1]))
  {
    EncodeRecordLen(recs[i]);
    Snoc(recs, i);
    assert Pieces(recs[..i + 1]) == Pieces(recs[..i]) + [EncodeRecord(recs[i])];
    LaidSnoc(Pieces(recs[..i]), EncodeRecord(recs[i]), before, w);
  }

  lemma LaidSnoc(pieces: seq<Bytes>, piece: Bytes, before: Bytes, w: Bytes)
    requires before == Laid(0, pieces)
    requires var gap := Gap(|before|, |piece|); w == (if gap > 0 then before + Zeros(gap) else before) + piece
    ensures w == Laid(0, pieces + [piece])
  {
    LaidJoin(0, pieces, [piece]);
    LaidOne(|before|, piece);
    Appending(before, Gap(|before|, |piece|), piece);
  }

  /** `DecodeDirectory`: its loop over length bytes, padding and records. */
  method DecodeDirectory(dir: Bytes) returns (r: Result<seq<Record>>)
    requires |dir| < 0x1_0000_0000
    ensures r == Listed(dir, 0, DecodeRecord)
  {
    r := DecodeAll(dir, DecodeRecord);
  }

  method DecodeAll<T>(dir: Bytes, decode: Bytes -> Result<T>) returns (r: Result<seq<T>>)
    requires |dir| < 0x1_0000_0000
    ensures r == Listed(dir, 0, decode)
  {
    var records: seq<T> := [];
    var pos := 0;
    ghost var whole := Listed(dir, 0, decode);
    assert whole.Ok? ==> [] + whole.value == whole.value;
    while pos < |dir|
      invariant 0 <= pos <= |dir|
      invariant Then(whole, records, Listed(dir, pos, decode))
      decreases |dir| - pos
    {
      var rlen := dir[pos];
      if rlen == 0 {
        if SkipTo(pos) > |dir| {
          return Err;
        }
        pos := SkipTo(pos);
        continue;
      }
      var end := RecordEnd(dir, pos);
      var rec := decode(dir[pos + 1..end]);
      if rec.Err? {
        return Err;
      }
      ThenOne(whole, records, rec.value, Listed(dir, end, decode));
      records := records + [rec.value];
      pos := end;
    }
    assert records + [] == records;
    r := Ok(records);
  }

  lemma PiecesSpell(recs: seq<Record>)
    requires AllOk(recs)
    ensures AllSpell(Pieces(recs), recs, DecodeRecord)
  {
    forall i | 0 <= i < |recs| ensures Spells(Pieces(recs)[i], recs[i], DecodeRecord) == true {
      EncodeRecordLen(recs[i]);
      RecordRoundTrip(recs[i]);
    }
  }

  /** What `WriteTo` wrote, padded out or not, decodes to the same records. */
  lemma WrittenRoundTrip(recs: seq<Record>, tail: Bytes)
    requires AllOk(recs) && |Laid(0, Pieces(recs))| <= MAX_PART
    requires tail == [] || tail == Zeros(PadLen(|Laid(0, Pieces(recs))|))
    ensures |Laid(0, Pieces(recs)) + tail| < 0x1_0000_0000
    ensures Listed(Laid(0, Pieces(recs)) + tail, 0, DecodeRecord) == Ok(recs)
  {
    HoldsAll(Pieces(recs), tail);
    PiecesSpell(recs);
    ExtentRoundTrip(Laid(0, Pieces(recs)) + tail, 0, Pieces(recs), recs, DecodeRecord);
  }

  /** No record crosses a sector boundary. */
  lemma NoRecordCrosses(recs: seq<Record>, i: nat)
    requires AllOk(recs) && i < |recs|
    ensures var at := Starts(0, Pieces(recs))[i];
      LiesAt(Laid(0, Pieces(recs)), at, EncodeRecord(recs[i])) == true && at % 2048 + RecordLen(recs[i]) <= 2048
  {
    EncodeRecordLen(recs[i]);
    PieceCrosses(Pieces(recs), EncodeRecord(recs[i]), i);
  }

  lemma PieceCrosses(pieces: seq<Bytes>, piece: Bytes, i: nat)
    requires i < |pieces| && pieces[i] == piece && |piece| <= 2048
    ensures var at := Starts(0, pieces)[i]; LiesAt(Laid(0, pieces), at, piece) == true && at % 2048 + |piece| <= 2048
  {
    PieceInPlace(0, pieces, i);
    NoPieceCrosses(0, pieces, i);
  }
}
