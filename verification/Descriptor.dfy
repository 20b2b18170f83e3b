/** The primary volume descriptor (pkg/iso9660/pvd.go). */
module Descriptor {
  import opened Prelude
  import opened Sectors
  import opened Susp
  import opened Directory

  type Uint16 = x: int | 0 <= x < 0x1_0000

  /** Times are their stored bytes, identifiers their text without the filling. */
  datatype Pvd = Pvd(
    system: Bytes, volume: Bytes, volumeSet: Bytes, publisher: Bytes, preparer: Bytes, application: Bytes,
    copyright: Bytes, abstractFile: Bytes, bibliographic: Bytes,
    space: Uint32, setSize: Uint16, sequence: Uint16, paths: Uint32,
    lTable: Lba, optionalL: Lba, mTable: Lba, optionalM: Lba,
    rootStart: Lba, rootLength: Uint32, rootModified: Bytes,
    created: Bytes, modified: Bytes, effective: Bytes)

  // ----- fields -----

  predicate CharD(b: Byte) { 0x41 <= b <= 0x5A || 0x30 <= b <= 0x39 || b == 0x5F }

  predicate CharA(b: Byte) { CharD(b) || b == 0x21 || b == 0x22 || 0x25 <= b <= 0x2F || 0x3A <= b <= 0x3F }

  const SPACE: Byte := 0x20

  function Spaces(n: nat): Bytes { seq(n, _ => SPACE) }

  /** A text and spaces behind it. */
  function Text(text: Bytes, n: nat): Bytes
    requires |text| <= n
  {
    text + Spaces(n - |text|)
  }

  /** `strings.TrimRight`. */
  function Trimmed(b: Bytes): Bytes {
    if b != [] && b[|b| - 1] == SPACE then Trimmed(b[..|b| - 1]) else b
  }

  function Upper(b: Bytes): (r: Bytes)
    ensures |r| == |b|
  {
    seq(|b|, i requires 0 <= i < |b| => if 0x61 <= b[i] <= 0x7A then b[i] - 0x20 else b[i])
  }

  /** `readStrA` and `readStrD`. */
  function ReadText(b: Bytes, d: bool): Result<Bytes> {
    var text := Upper(Trimmed(b));
    if forall i | 0 <= i < |text| :: (if d then CharD(text[i]) else CharA(text[i])) then Ok(text) else Err
  }

  ghost predicate TextOk(text: Bytes, n: nat, d: bool) {
    |text| <= n && forall i | 0 <= i < |text| :: if d then CharD(text[i]) else CharA(text[i])
  }

  lemma {:induction false} TrimText(text: Bytes, n: nat)
    requires text == [] || text[|text| - 1] != SPACE
    ensures Trimmed(text + Spaces(n)) == text
  {
    var b := text + Spaces(n);
    if n == 0 {
      assert b == text;
    } else {
      assert b[..|b| - 1] == text + Spaces(n - 1);
      TrimText(text, n - 1);
    }
  }

  lemma TextRoundTrip(text: Bytes, n: nat, d: bool)
    requires TextOk(text, n, d)
    ensures |Text(text, n)| == n && ReadText(Text(text, n), d) == Ok(text)
  {
    TrimText(text, n - |text|);
    assert Upper(text) == text;
  }

  lemma {:induction false} TrimmedIs(b: Bytes)
    ensures var t := Trimmed(b); |t| <= |b| && b == Text(t, |b|) && (t == [] || t[|t| - 1] != SPACE)
  {
    if b != [] && b[|b| - 1] == SPACE {
      TrimmedIs(b[..|b| - 1]);
    }
  }

  /** Exactly a text of allowed characters in either case, filled up with spaces, is read as that text. */
  lemma ReadsExactly(b: Bytes, d: bool, text: Bytes)
    ensures ReadText(b, d) == Ok(text) <==> TextOk(text, |b|, d) && Upper(b) == Text(text, |b|)
  {
    var t := Trimmed(b);
    TrimmedIs(b);
    assert Upper(b) == Text(Upper(t), |b|);
    if TextOk(text, |b|, d) && Upper(b) == Text(text, |b|) {
      TrimText(text, |b| - |text|);
      TrimText(Upper(t), |b| - |t|);
    }
  }

  /** What an a-character is beside a d-character. */
  const MORE_CHARACTERS := "!\"%&'()*+,-./:;<=>?"

  /** The characters of ECMA-119, annex A, and what `strings.ToUpper` does to a letter. */
  lemma CharactersAre(b: Byte)
    ensures var c := b as char;
      (CharD(b) <==> 'A' <= c <= 'Z' || '0' <= c <= '9' || c == '_')
      && (CharA(b) <==> CharD(b) || c in MORE_CHARACTERS)
      && Upper([b])[0] as char == if 'a' <= c <= 'z' then 'A' + (c - 'a') else c
  {
    var more := MORE_CHARACTERS;
    if CharA(b) && !CharD(b) {
      assert more[if b <= 0x22 then b - 0x21 else if b <= 0x2F then b - 0x25 + 2 else b - 0x3A + 13] == b as char;
    }
  }

  /** `StrA` and `StrD`, up to the filling: upper case, cut off, and with a mark in place of what is not allowed. */
  function Label(text: Bytes, n: nat, d: bool): (r: Bytes)
    ensures TextOk(r, n, d)
  {
    var upper := Upper(text);
    seq(if |text| < n then |text| else n, i requires 0 <= i < |text| =>
      if d then (if CharD(upper[i]) then upper[i] else 0x5F) else (if CharA(upper[i]) then upper[i] else 0x3F))
  }

  /** A label is read back as it was written, and a text that is allowed is its own label. */
  lemma LabelRoundTrip(text: Bytes, n: nat, d: bool)
    ensures ReadText(Text(Label(text, n, d), n), d) == Ok(Label(text, n, d))
    ensures TextOk(text, n, d) <==> Label(text, n, d) == text
  {
    TextRoundTrip(Label(text, n, d), n, d);
    if TextOk(text, n, d) { assert Upper(text) == text; }
  }

  function Little32(v: Uint32): (r: Bytes)
    ensures |r| == 4
  {
    Both32(v)[..4]
  }

  function Big32(v: Uint32): (r: Bytes)
    ensures |r| == 4
  {
    Both32(v)[4..]
  }

  function GetLittle32(b: Bytes): Uint32
    requires |b| == 4
  {
    b[0] as int + 0x100 * b[1] as int + 0x1_0000 * b[2] as int + 0x100_0000 * b[3] as int
  }

  function GetBig32(b: Bytes): Uint32
    requires |b| == 4
  {
    b[3] as int + 0x100 * b[2] as int + 0x1_0000 * b[1] as int + 0x100_0000 * b[0] as int
  }

  lemma EndianRoundTrip(v: Uint32)
    ensures GetLittle32(Little32(v)) == v == GetBig32(Big32(v))
  {
    Digits(v);
  }

  // ----- the descriptor, in five pieces -----

  const CD001: Bytes := [0x43, 0x44, 0x30, 0x30, 0x31]

  /** `MaxDecDateTime`. */
  function MaxDate(): Bytes { seq(16, _ => 0x30) + [0] }

  function Labels(p: Pvd): Bytes
    requires PvdOk(p)
  {
    ([1] + CD001 + [1, 0]) + Text(p.system, 32) + Text(p.volume, 32) + Zeros(8) + Both32(p.space) + Zeros(32)
  }

  function Numbers(p: Pvd): Bytes {
    Both16(p.setSize) + Both16(p.sequence) + Both16(2048) + Both32(p.paths)
    + Little32(p.lTable) + Little32(p.optionalL) + Big32(p.mTable) + Big32(p.optionalM)
  }

  /** The root's record, as the descriptor holds it. */
  function RootRecord(p: Pvd): Record { Record([0], p.rootStart, p.rootLength, 2, p.rootModified, [], 0, 0, 0, 1) }

  function Texts(p: Pvd): Bytes
    requires PvdOk(p)
  {
    Text(p.volumeSet, 128) + Text(p.publisher, 128) + Text(p.preparer, 128) + Text(p.application, 128)
    + Text(p.copyright, 38) + Text(p.abstractFile, 36) + Text(p.bibliographic, 37)
  }

  function Times(p: Pvd): Bytes {
    p.created + p.modified + MaxDate() + p.effective + [1, 0] + Spaces(512) + Zeros(653)
  }

  ghost predicate PvdOk(p: Pvd) {
    TextOk(p.system, 32, false) && TextOk(p.volume, 32, true) && TextOk(p.volumeSet, 128, true)
    && TextOk(p.publisher, 128, false) && TextOk(p.preparer, 128, false) && TextOk(p.application, 128, false)
    && TextOk(p.copyright, 38, true) && TextOk(p.abstractFile, 36, true) && TextOk(p.bibliographic, 37, true)
    && StampsOk(p)
  }

  ghost predicate StampsOk(p: Pvd) {
    |p.rootModified| == 7 && |p.created| == |p.modified| == |p.effective| == 17
  }

  lemma RootOk(p: Pvd)
    requires PvdOk(p)
    ensures RecordOk(RootRecord(p)) == true && |EncodeRecord(RootRecord(p))| == 34
  {
    EncodeRecordLen(RootRecord(p));
  }

  function EncodePvd(p: Pvd): Bytes
    requires PvdOk(p) == true
  {
    RootOk(p);
    Labels(p) + Numbers(p) + EncodeRecord(RootRecord(p)) + Texts(p) + Times(p)
  }

  // ----- reading it back -----

  function WithLabels(p: Pvd, b: Bytes): Result<Pvd>
    requires |b| == 120
  {
    var system, volume, space := ReadText(b[8..40], false), ReadText(b[40..72], true), GetBoth32(b[80..88]);
    if b[..8] != [1] + CD001 + [1, 0] || system.Err? || volume.Err? || space.Err? then Err
    else Ok(p.(system := system.value, volume := volume.value, space := space.value))
  }

  function WithNumbers(p: Pvd, b: Bytes): Result<Pvd>
    requires |b| == 36
  {
    var setSize, sequence, block := GetBoth16(b[..4]), GetBoth16(b[4..8]), GetBoth16(b[8..12]);
    var paths := GetBoth32(b[12..20]);
    if setSize.Err? || sequence.Err? || block != Ok(2048) || paths.Err? then Err
    else
      Ok(p.(setSize := setSize.value, sequence := sequence.value, paths := paths.value,
        lTable := GetLittle32(b[20..24]), optionalL := GetLittle32(b[24..28]),
        mTable := GetBig32(b[28..32]), optionalM := GetBig32(b[32..36])))
  }

  function WithRoot(p: Pvd, b: Bytes): Result<Pvd>
    requires |b| == 34
  {
    var root := DecodeRecord(b[1..]);
    if b[0] != 34 || root.Err? then Err
    else Ok(p.(rootStart := root.value.start, rootLength := root.value.length, rootModified := root.value.recorded))
  }

  function WithTexts(p: Pvd, b: Bytes): Result<Pvd>
    requires |b| == 623
  {
    var volumeSet, publisher := ReadText(b[..128], true), ReadText(b[128..256], false);
    var preparer, application := ReadText(b[256..384], false), ReadText(b[384..512], false);
    var copyright, abstractFile := ReadText(b[512..550], true), ReadText(b[550..586], true);
    var bibliographic := ReadText(b[586..], true);
    if volumeSet.Err? || publisher.Err? || preparer.Err? || application.Err? || copyright.Err? || abstractFile.Err?
      || bibliographic.Err? then Err
    else
      Ok(p.(volumeSet := volumeSet.value, publisher := publisher.value, preparer := preparer.value,
        application := application.value, copyright := copyright.value, abstractFile := abstractFile.value,
        bibliographic := bibliographic.value))
  }

  function WithTimes(p: Pvd, b: Bytes): Result<Pvd>
    requires |b| == 1235
  {
    if b[68..70] != [1, 0] then Err
    else Ok(p.(created := b[..17], modified := b[17..34], effective := b[51..68]))
  }

  const BLANK := Pvd([], [], [], [], [], [], [], [], [], 0, 0, 0, 0, 0, 0, 0, 0, 0, 0, [], [], [], [])

  /** `DecodePrimaryVolumeDescriptor`. */
  function DecodePvd(b: Bytes): Result<Pvd> {
    if |b| < 2048 then Err
    else
      var p := WithLabels(BLANK, b[..120]);
      if p.Err? then Err
      else
        var q := WithNumbers(p.value, b[120..156]);
        if q.Err? then Err
        else
          var r := WithRoot(q.value, b[156..190]);
          if r.Err? then Err
          else
            var s := WithTexts(r.value, b[190..813]);
            if s.Err? then Err else WithTimes(s.value, b[813..2048])
  }

  lemma LabelsBack(p: Pvd, q: Pvd)
    requires PvdOk(p)
    ensures |Labels(p)| == 120
    ensures WithLabels(q, Labels(p)) == Ok(q.(system := p.system, volume := p.volume, space := p.space))
  {
    var b := Labels(p);
    TextRoundTrip(p.system, 32, false);
    TextRoundTrip(p.volume, 32, true);
    assert b[..8] == [1] + CD001 + [1, 0] && b[8..40] == Text(p.system, 32) && b[40..72] == Text(p.volume, 32);
    assert b[80..88] == Both32(p.space) + [];
    Both32RoundTrip(p.space, []);
  }

  lemma NumbersBack(p: Pvd, q: Pvd)
    ensures |Numbers(p)| == 36
    ensures WithNumbers(q, Numbers(p)) == Ok(q.(setSize := p.setSize, sequence := p.sequence, paths := p.paths,
      lTable := p.lTable, optionalL := p.optionalL, mTable := p.mTable, optionalM := p.optionalM))
  {
    var b := Numbers(p);
    assert b[..4] == Both16(p.setSize) + [] && b[4..8] == Both16(p.sequence) + [] && b[8..12] == Both16(2048) + [];
    assert b[12..20] == Both32(p.paths) + [];
    assert b[20..24] == Little32(p.lTable) && b[24..28] == Little32(p.optionalL);
    assert b[28..32] == Big32(p.mTable) && b[32..36] == Big32(p.optionalM);
    Both16RoundTrip(p.setSize, []);
    Both16RoundTrip(p.sequence, []);
    Both16RoundTrip(2048, []);
    Both32RoundTrip(p.paths, []);
    EndianRoundTrip(p.lTable);
    EndianRoundTrip(p.optionalL);
    EndianRoundTrip(p.mTable);
    EndianRoundTrip(p.optionalM);
  }

  lemma RootBack(p: Pvd, q: Pvd)
    requires PvdOk(p)
    ensures RecordOk(RootRecord(p)) == true && |EncodeRecord(RootRecord(p))| == 34
    ensures WithRoot(q, EncodeRecord(RootRecord(p)))
      == Ok(q.(rootStart := p.rootStart, rootLength := p.rootLength, rootModified := p.rootModified))
  {
    RootOk(p);
    EncodeRecordLen(RootRecord(p));
    RecordRoundTrip(RootRecord(p));
  }

  lemma TextsBack(p: Pvd, q: Pvd)
    requires PvdOk(p)
    ensures |Texts(p)| == 623
    ensures WithTexts(q, Texts(p)) == Ok(q.(volumeSet := p.volumeSet, publisher := p.publisher, preparer := p.preparer,
      application := p.application, copyright := p.copyright, abstractFile := p.abstractFile,
      bibliographic := p.bibliographic))
  {
    var b := Texts(p);
    TextRoundTrip(p.volumeSet, 128, true);
    TextRoundTrip(p.publisher, 128, false);
    TextRoundTrip(p.preparer, 128, false);
    TextRoundTrip(p.application, 128, false);
    TextRoundTrip(p.copyright, 38, true);
    TextRoundTrip(p.abstractFile, 36, true);
    TextRoundTrip(p.bibliographic, 37, true);
    assert b[..128] == Text(p.volumeSet, 128) && b[128..256] == Text(p.publisher, 128);
    assert b[256..384] == Text(p.preparer, 128) && b[384..512] == Text(p.application, 128);
    assert b[512..550] == Text(p.copyright, 38) && b[550..586] == Text(p.abstractFile, 36);
    assert b[586..] == Text(p.bibliographic, 37);
  }

  lemma TimesBack(p: Pvd, q: Pvd)
    requires PvdOk(p)
    ensures |Times(p)| == 1235
    ensures WithTimes(q, Times(p)) == Ok(q.(created := p.created, modified := p.modified, effective := p.effective))
  {
    var b := Times(p);
    assert b[..17] == p.created && b[17..34] == p.modified && b[51..68] == p.effective && b[68..70] == [1, 0];
  }

  lemma FivePieces(a: Bytes, b: Bytes, c: Bytes, d: Bytes, e: Bytes)
    requires |a| == 120 && |b| == 36 && |c| == 34 && |d| == 623 && |e| == 1235
    ensures var all := a + b + c + d + e;
      |all| == 2048 && all[..120] == a && all[120..156] == b && all[156..190] == c && all[190..813] == d
        && all[813..2048] == e
  {
  }

  /** A descriptor takes one sector and is read back. */
  lemma PvdRoundTrip(p: Pvd)
    requires PvdOk(p)
    ensures |EncodePvd(p)| == 2048 && DecodePvd(EncodePvd(p)) == Ok(p)
  {
    LabelsBack(p, BLANK);
    var q := BLANK.(system := p.system, volume := p.volume, space := p.space);
    NumbersBack(p, q);
    var r := q.(setSize := p.setSize, sequence := p.sequence, paths := p.paths, lTable := p.lTable,
      optionalL := p.optionalL, mTable := p.mTable, optionalM := p.optionalM);
    RootBack(p, r);
    var s := r.(rootStart := p.rootStart, rootLength := p.rootLength, rootModified := p.rootModified);
    TextsBack(p, s);
    TimesBack(p, s.(volumeSet := p.volumeSet, publisher := p.publisher, preparer := p.preparer,
      application := p.application, copyright := p.copyright, abstractFile := p.abstractFile,
      bibliographic := p.bibliographic));
    FivePieces(Labels(p), Numbers(p), EncodeRecord(RootRecord(p)), Texts(p), Times(p));
  }

  /** A descriptor that was read can be written again. */
  lemma DecodedOk(b: Bytes, p: Pvd)
    requires DecodePvd(b) == Ok(p)
    ensures PvdOk(p)
  {
    var labels, texts := b[..120], b[190..813];
    ReadsExactly(labels[8..40], false, p.system);
    ReadsExactly(labels[40..72], true, p.volume);
    TextsDecoded(texts, p);
    DecodesExactly(b[156..190][1..], DecodeRecord(b[156..190][1..]).value);
  }

  lemma TextsDecoded(b: Bytes, p: Pvd)
    requires |b| == 623 && WithTexts(p, b) == Ok(p)
    ensures TextOk(p.volumeSet, 128, true) && TextOk(p.publisher, 128, false) && TextOk(p.preparer, 128, false)
    ensures TextOk(p.application, 128, false) && TextOk(p.copyright, 38, true) && TextOk(p.abstractFile, 36, true)
    ensures TextOk(p.bibliographic, 37, true)
  {
    ReadsExactly(b[..128], true, p.volumeSet);
    ReadsExactly(b[128..256], false, p.publisher);
    ReadsExactly(b[256..384], false, p.preparer);
    ReadsExactly(b[384..512], false, p.application);
    ReadsExactly(b[512..550], true, p.copyright);
    ReadsExactly(b[550..586], true, p.abstractFile);
    ReadsExactly(b[586..], true, p.bibliographic);
  }

  // ----- where things are -----

  /** What every descriptor has in common, as ECMA-119 has it: type and identifier, the areas not used, the block size,
    the expiration date of zeros, the version and the blank areas. */
  ghost predicate FixedParts(b: Bytes) {
    |b| == 2048 && b[..8] == [1, 0x43, 0x44, 0x30, 0x30, 0x31, 1, 0] && b[72..80] == Zeros(8) && b[88..120] == Zeros(32)
    && b[128..132] == [0, 8, 8, 0] && (forall i | 847 <= i < 863 :: b[i] == 0x30) && b[863] == 0
    && b[881] == 1 && b[882] == 0 && (forall i | 883 <= i < 1395 :: b[i] == 0x20)
    && forall i | 1395 <= i < 2048 :: b[i] == 0
  }

  lemma TimesFixed(p: Pvd)
    requires PvdOk(p)
    ensures var b := Times(p);
      |b| == 1235 && (forall i | 34 <= i < 50 :: b[i] == 0x30) && b[50] == 0 && b[68] == 1 && b[69] == 0
      && (forall i | 70 <= i < 582 :: b[i] == 0x20) && forall i | 582 <= i < 1235 :: b[i] == 0
  {
  }

  lemma LabelsFixed(p: Pvd)
    requires PvdOk(p)
    ensures var b := Labels(p);
      |b| == 120 && b[..8] == [1, 0x43, 0x44, 0x30, 0x30, 0x31, 1, 0]
      && b[72..80] == Zeros(8) && b[88..120] == Zeros(32)
  {
  }

  lemma NumbersFixed(p: Pvd)
    ensures |Numbers(p)| == 36 && Numbers(p)[8..12] == [0, 8, 8, 0]
  {
    assert Numbers(p)[8..12] == Both16(2048);
  }

  lemma PvdFixed(p: Pvd)
    requires PvdOk(p)
    ensures FixedParts(EncodePvd(p)) == true
  {
    LabelsFixed(p);
    NumbersFixed(p);
    TimesFixed(p);
    PvdPieces(p);
  }

  lemma PvdPieces(p: Pvd)
    requires PvdOk(p)
    ensures RecordOk(RootRecord(p)) == true && |EncodeRecord(RootRecord(p))| == 34
    ensures PiecesLie(EncodePvd(p), Labels(p), Numbers(p), EncodeRecord(RootRecord(p)), Times(p)) == true
  {
    RootOk(p);
    LabelsFixed(p);
    NumbersFixed(p);
    TimesFixed(p);
    TextsBack(p, BLANK);
    PiecesAre(EncodePvd(p), Labels(p), Numbers(p), EncodeRecord(RootRecord(p)), Texts(p), Times(p));
  }

  /** The numbers and the root record lie where ECMA-119 wants them. */
  lemma PvdParts(p: Pvd)
    requires PvdOk(p)
    ensures var b := EncodePvd(p);
      FixedParts(b) && b[80..88] == Both32(p.space) && b[132..140] == Both32(p.paths)
      && b[140..144] == Little32(p.lTable) && b[148..152] == Big32(p.mTable) && b[156] == 34
      && DecodeRecord(b[157..190]) == Ok(Record([0], p.rootStart, p.rootLength, 2, p.rootModified, [], 0, 0, 0, 1))
  {
    PvdFixed(p);
    PvdPieces(p);
    EncodeRecordLen(RootRecord(p));
    RecordRoundTrip(RootRecord(p));
    NumbersAre(p);
    assert Labels(p)[80..88] == Both32(p.space);
  }

  lemma NumbersAre(p: Pvd)
    ensures var b := Numbers(p);
      |b| == 36 && b[12..20] == Both32(p.paths) && b[20..24] == Little32(p.lTable) && b[28..32] == Big32(p.mTable)
  {
  }

  ghost predicate PiecesLie(b: Bytes, labels: Bytes, numbers: Bytes, root: Bytes, times: Bytes) {
    |labels| == 120 && |numbers| == 36 && |root| == 34 && |times| == 1235
    && |b| == 2048 && b[..8] == labels[..8] && b[72..80] == labels[72..80] && b[80..88] == labels[80..88]
    && b[88..120] == labels[88..120] && b[128..132] == numbers[8..12] && b[132..140] == numbers[12..20]
    && b[140..144] == numbers[20..24] && b[148..152] == numbers[28..32] && b[156] == root[0]
    && b[157..190] == root[1..] && forall i | 813 <= i < 2048 :: b[i] == times[i - 813]
  }

  lemma PiecesAre(b: Bytes, labels: Bytes, numbers: Bytes, root: Bytes, texts: Bytes, times: Bytes)
    requires |labels| == 120 && |numbers| == 36 && |root| == 34 && |texts| == 623 && |times| == 1235
    requires b == labels + numbers + root + texts + times
    ensures PiecesLie(b, labels, numbers, root, times) == true
  {
  }

  // ----- the start of a volume -----

  /** Type 255, the identifier and the version, and nothing else. */
  lemma TerminatorIs()
    ensures Terminator()[..7] == [255, 0x43, 0x44, 0x30, 0x30, 0x31, 1]
    ensures forall i | 7 <= i < 2048 :: Terminator()[i] == 0
  {
  }

  function Terminator(): (r: Bytes)
    ensures |r| == 2048
  {
    [255] + CD001 + [1] + Zeros(2041)
  }

  /** The texts as they are written. */
  function Labelled(p: Pvd): Pvd {
    p.(system := Label(p.system, 32, false), volume := Label(p.volume, 32, true),
       volumeSet := Label(p.volumeSet, 128, true), publisher := Label(p.publisher, 128, false),
       preparer := Label(p.preparer, 128, false), application := Label(p.application, 128, false),
       copyright := Label(p.copyright, 38, true), abstractFile := Label(p.abstractFile, 36, true),
       bibliographic := Label(p.bibliographic, 37, true))
  }

  /** Whatever its texts are, a descriptor is written, and all of it is read back with its texts as labels. */
  lemma LabelsRoundTrip(p: Pvd)
    requires StampsOk(p)
    ensures PvdOk(Labelled(p)) && |EncodePvd(Labelled(p))| == 2048
    ensures DecodePvd(EncodePvd(Labelled(p))) == Ok(Labelled(p))
    ensures PvdOk(p) <==> Labelled(p) == p
  {
    PvdRoundTrip(Labelled(p));
    LabelsSame(p);
  }

  lemma LabelsSame(p: Pvd)
    requires StampsOk(p)
    ensures PvdOk(p) <==> Labelled(p) == p
  {
    LabelRoundTrip(p.system, 32, false);
    LabelRoundTrip(p.volume, 32, true);
    LabelRoundTrip(p.volumeSet, 128, true);
    LabelRoundTrip(p.publisher, 128, false);
    LabelRoundTrip(p.preparer, 128, false);
    LabelRoundTrip(p.application, 128, false);
    LabelRoundTrip(p.copyright, 38, true);
    LabelRoundTrip(p.abstractFile, 36, true);
    LabelRoundTrip(p.bibliographic, 37, true);
  }

  /** The system area is empty, and the descriptors lie in sectors 16 and 17. (Only unfolded where
    `UnfoldFront(true)` is asserted.) */
  ghost predicate FrontLies(w: Bytes, p: Pvd) {
    forall u {:trigger UnfoldFront(u)} :: UnfoldFront(u) ==>
      PvdOk(p) == true && LiesAt(w, 0, Zeros(16 * 2048)) == true && LiesAt(w, 16 * 2048, EncodePvd(p)) == true
      && LiesAt(w, 17 * 2048, Terminator()) == true
  }

  ghost predicate UnfoldFront(u: bool) { true }

  /** The system area and both volume descriptors. */
  method WriteFront(p: Pvd) returns (w: Bytes)
    requires PvdOk(p)
    ensures |w| == 18 * 2048 && FrontLies(w, p) == true
  {
    w := Zeros(16 * 2048);
    FrontWhole(p, w, EncodePvd(p), Terminator());
    w := w + EncodePvd(p) + Terminator();
  }

  lemma PvdLen(p: Pvd)
    requires PvdOk(p)
    ensures |EncodePvd(p)| == 2048
  {
    PvdRoundTrip(p);
  }

  lemma FrontWhole(p: Pvd, a: Bytes, b: Bytes, c: Bytes)
    requires PvdOk(p) == true && a == Zeros(16 * 2048) && b == EncodePvd(p) && c == Terminator()
    ensures |a + b + c| == 18 * 2048 && FrontLies(a + b + c, p) == true
  {
    PvdLen(p);
    FrontCut(a, b, c);
  }

  lemma FrontCut(a: Bytes, b: Bytes, c: Bytes)
    ensures LiesAt(a + b + c, 0, a) == true && LiesAt(a + b + c, |a|, b) == true
    ensures LiesAt(a + b + c, |a| + |b|, c) == true
  {
    Middle(a, b, c);
    InBack(a + b, c);
    assert (a + b + c)[0..|a|] == a;
  }

  lemma FrontStays(w: Bytes, r: Bytes, p: Pvd)
    requires FrontLies(w, p) == true && w <= r
    ensures FrontLies(r, p) == true
  {
    assert UnfoldFront(true);
    LiesOn(w, r, 0, Zeros(16 * 2048));
    LiesOn(w, r, 16 * 2048, EncodePvd(p));
    LiesOn(w, r, 17 * 2048, Terminator());
  }

  lemma SystemArea(w: Bytes, iso: Bytes, p: Pvd)
    requires FrontLies(w, p) == true && w <= iso
    ensures LiesAt(iso, 0, Zeros(16 * 2048)) == true
  {
    assert UnfoldFront(true);
    LiesOn(w, iso, 0, Zeros(16 * 2048));
  }

  /** Whoever opens the volume finds the descriptor. */
  lemma FrontRead(w: Bytes, iso: Bytes, p: Pvd)
    requires FrontLies(w, p) == true && w <= iso
    ensures DecodePvd(Copied(iso, 16 * 2048, 2048)) == Ok(p)
  {
    FrontStays(w, iso, p);
    assert UnfoldFront(true);
    PvdRoundTrip(p);
    assert Copied(iso, 16 * 2048, 2048) == iso[16 * 2048..17 * 2048];
  }
}
