/** Record identifiers: a counter as a varint in base 32 (pkg/iso9660/identifier.go). */
module Identifier {
  import opened Prelude

  // ----- varints -----

  function Uvarint(n: nat): (r: Bytes)
    ensures r != []
  {
    if n < 0x80 then [n] else [n % 0x80 + 0x80] + Uvarint(n / 0x80)
  }

  function ReadUvarint(b: Bytes): nat {
    if b == [] then 0 else if b[0] < 0x80 then b[0] else b[0] - 0x80 + 0x80 * ReadUvarint(b[1..])
  }

  lemma {:induction false} UvarintRoundTrip(n: nat)
    ensures ReadUvarint(Uvarint(n)) == n
  {
    if n >= 0x80 {
      UvarintRoundTrip(n / 0x80);
      assert Uvarint(n)[1..] == Uvarint(n / 0x80);
    }
  }

  ghost function Pow(n: nat): (p: nat)
    ensures p > 0
  {
    if n == 0 then 1 else 0x80 * Pow(n - 1)
  }

  lemma {:induction false} UvarintLen(n: nat, k: nat)
    requires k > 0 && n < Pow(k)
    ensures |Uvarint(n)| <= k
  {
    if n >= 0x80 {
      assert n / 0x80 < Pow(k - 1);
      UvarintLen(n / 0x80, k - 1);
    }
  }

  // ----- base 32 -----

  const PADDING: Byte := 0x5F

  /** A letter for 0 to 25, a digit 2 to 7 for the rest. */
  function Letter(d: int): Byte
    requires 0 <= d < 32
  {
    if d < 26 then 0x41 + d else 0x32 + (d - 26)
  }

  /** The number that up to five bytes stand for, filled up with zeros on the right. */
  function Value(b: Bytes): nat {
    At(b, 0) * 0x1_0000_0000 + At(b, 1) * 0x100_0000 + At(b, 2) * 0x1_0000 + At(b, 3) * 0x100 + At(b, 4)
  }

  function At(b: Bytes, i: nat): nat { if i < |b| then b[i] else 0 }

  /** How many of the eight letters are needed for a block of `n` bytes. */
  function Letters(n: nat): nat {
    if n == 1 then 2 else if n == 2 then 4 else if n == 3 then 5 else if n == 4 then 7 else 8
  }

  function Shift(v: nat, k: nat): nat {
    if k == 0 then v else Shift(v / 32, k - 1)
  }

  /** The `i`-th of the eight base-32 digits. */
  function Digit(v: nat, i: nat): (d: int)
    requires i < 8
    ensures 0 <= d < 32
  {
    Shift(v, 7 - i) % 32
  }

  function Block(b: Bytes): (r: Bytes)
    ensures |r| == 8
  {
    seq(8, i requires 0 <= i < 8 => if i < Letters(|b|) then Letter(Digit(Value(b), i)) else PADDING)
  }

  /** `shortEncoding.Encode`. */
  function Base32(b: Bytes): Bytes {
    if b == [] then [] else if |b| <= 5 then Block(b) else Block(b[..5]) + Base32(b[5..])
  }

  lemma PaddedAt(b: Bytes, i: nat)
    requires i < 8
    ensures Block(b)[i] == PADDING <==> i >= Letters(|b|)
    ensures i < Letters(|b|) ==> Block(b)[i] == Letter(Digit(Value(b), i))
  {
  }

  /** The padding tells how many bytes there were. */
  lemma BlockSize(a: Bytes, b: Bytes)
    requires 0 < |a| <= 5 && 0 < |b| <= 5 && Block(a) == Block(b)
    ensures |a| == |b|
  {
    PaddedAt(a, 2); PaddedAt(b, 2);
    PaddedAt(a, 4); PaddedAt(b, 4);
    PaddedAt(a, 5); PaddedAt(b, 5);
    PaddedAt(a, 7); PaddedAt(b, 7);
  }

  /** The lowest `k` digits are zero. */
  ghost predicate LowZero(v: nat, k: nat) {
    k == 0 || (v % 32 == 0 && LowZero(v / 32, k - 1))
  }

  lemma {:induction false} LowZeroDigit(v: nat, k: nat, j: nat)
    requires LowZero(v, k) && j < k
    ensures Shift(v, j) % 32 == 0
  {
    if j > 0 { LowZeroDigit(v / 32, k - 1, j - 1); }
  }

  /** One more zero digit. */
  lemma LowZeroStep(v: nat, w: nat, k: nat)
    requires v == 32 * w && LowZero(w, k)
    ensures LowZero(v, k + 1)
  {
  }

  lemma ShortValue(b: Bytes)
    requires 0 < |b| < 5
    ensures LowZero(Value(b), 8 - Letters(|b|))
  {
    if |b| == 1 {
      var x := At(b, 0);
      LowZeroStep(0x80 * x, 4 * x, 0);
      LowZeroStep(0x1000 * x, 0x80 * x, 1);
      LowZeroStep(0x2_0000 * x, 0x1000 * x, 2);
      LowZeroStep(0x40_0000 * x, 0x2_0000 * x, 3);
      LowZeroStep(0x800_0000 * x, 0x40_0000 * x, 4);
      LowZeroStep(0x1_0000_0000 * x, 0x800_0000 * x, 5);
    } else if |b| == 2 {
      var x := At(b, 0) * 0x100 + At(b, 1);
      LowZeroStep(0x200 * x, 0x10 * x, 0);
      LowZeroStep(0x4000 * x, 0x200 * x, 1);
      LowZeroStep(0x8_0000 * x, 0x4000 * x, 2);
      LowZeroStep(0x100_0000 * x, 0x8_0000 * x, 3);
    } else if |b| == 3 {
      var x := At(b, 0) * 0x1_0000 + At(b, 1) * 0x100 + At(b, 2);
      LowZeroStep(0x40 * x, 2 * x, 0);
      LowZeroStep(0x800 * x, 0x40 * x, 1);
      LowZeroStep(0x1_0000 * x, 0x800 * x, 2);
    } else {
      var x := At(b, 0) * 0x100_0000 + At(b, 1) * 0x1_0000 + At(b, 2) * 0x100 + At(b, 3);
      LowZeroStep(0x100 * x, 8 * x, 0);
    }
  }

  /** What the padding hides is zero. */
  lemma HiddenZero(b: Bytes, i: nat)
    requires 0 < |b| <= 5 && Letters(|b|) <= i < 8
    ensures Digit(Value(b), i) == 0
  {
    ShortValue(b);
    LowZeroDigit(Value(b), 8 - Letters(|b|), 7 - i);
  }

  lemma SameDigit(a: Bytes, b: Bytes, i: nat)
    requires 0 < |a| <= 5 && |b| == |a| && Block(a) == Block(b) && i < 8
    ensures Digit(Value(a), i) == Digit(Value(b), i)
  {
    if i < Letters(|a|) {
      PaddedAt(a, i);
      PaddedAt(b, i);
    } else {
      HiddenZero(a, i);
      HiddenZero(b, i);
    }
  }

  /** A number is told by its lowest digits and what lies above them. */
  lemma {:induction false} DigitsTell(v: nat, w: nat, k: nat)
    requires Shift(v, k) == Shift(w, k)
    requires forall j: nat | j < k :: Shift(v, j) % 32 == Shift(w, j) % 32
    ensures v == w
  {
    if k > 0 {
      assert Shift(v, 0) % 32 == Shift(w, 0) % 32;
      forall j: nat | j < k - 1 ensures Shift(v / 32, j) % 32 == Shift(w / 32, j) % 32 {
        assert Shift(v, j + 1) % 32 == Shift(w, j + 1) % 32;
      }
      DigitsTell(v / 32, w / 32, k - 1);
    }
  }

  lemma ShiftedOut(v: nat)
    requires v < 0x100_0000_0000
    ensures Shift(v, 8) == 0
  {
    var v1 := v / 32;
    var v2 := v1 / 32;
    var v3 := v2 / 32;
    var v4 := v3 / 32;
    assert v4 < 0x10_0000;
    var v5 := v4 / 32;
    var v6 := v5 / 32;
    var v7 := v6 / 32;
    assert v7 / 32 == 0;
    assert Shift(v, 8) == Shift(v1, 7) == Shift(v2, 6) == Shift(v3, 5) == Shift(v4, 4);
    assert Shift(v4, 4) == Shift(v5, 3) == Shift(v6, 2) == Shift(v7, 1) == Shift(v7 / 32, 0);
  }

  lemma ValueTells(a: Bytes, b: Bytes)
    requires |a| == |b| <= 5 && Value(a) == Value(b)
    ensures a == b
  {
    assert At(a, 0) == At(b, 0) && At(a, 1) == At(b, 1) && At(a, 2) == At(b, 2) && At(a, 3) == At(b, 3)
      && At(a, 4) == At(b, 4);
    assert forall i | 0 <= i < |a| :: a[i] == At(a, i) && b[i] == At(b, i);
  }

  lemma BlockInjective(a: Bytes, b: Bytes)
    requires 0 < |a| <= 5 && 0 < |b| <= 5 && Block(a) == Block(b)
    ensures a == b
  {
    BlockSize(a, b);
    forall j: nat | j < 8 ensures Shift(Value(a), j) % 32 == Shift(Value(b), j) % 32 {
      SameDigit(a, b, 7 - j);
    }
    ShiftedOut(Value(a));
    ShiftedOut(Value(b));
    DigitsTell(Value(a), Value(b), 8);
    ValueTells(a, b);
  }

  lemma Base32Head(b: Bytes)
    requires b != []
    ensures |Base32(b)| >= 8 && Base32(b)[..8] == Block(if |b| <= 5 then b else b[..5])
    ensures Base32(b)[8..] == Base32(if |b| <= 5 then [] else b[5..])
  {
  }

  lemma {:induction false} Base32Injective(a: Bytes, b: Bytes)
    requires Base32(a) == Base32(b)
    ensures a == b
    decreases |a|
  {
    if a == [] || b == [] {
      if a != [] { Base32Head(a); }
      if b != [] { Base32Head(b); }
    } else {
      Base32Head(a);
      Base32Head(b);
      var x, y := if |a| <= 5 then a else a[..5], if |b| <= 5 then b else b[..5];
      var x', y' := if |a| <= 5 then [] else a[5..], if |b| <= 5 then [] else b[5..];
      BlockInjective(x, y);
      Base32Injective(x', y');
      assert a == x + x' && b == y + y';
    }
  }

  // ----- what the letters say -----

  /** The alphabet of RFC 4648, section 6. */
  const ALPHABET: Bytes := [
    0x41, 0x42, 0x43, 0x44, 0x45, 0x46, 0x47, 0x48, 0x49, 0x4A, 0x4B, 0x4C, 0x4D, 0x4E, 0x4F, 0x50,
    0x51, 0x52, 0x53, 0x54, 0x55, 0x56, 0x57, 0x58, 0x59, 0x5A, 0x32, 0x33, 0x34, 0x35, 0x36, 0x37]

  lemma LetterIs(d: int)
    requires 0 <= d < 32
    ensures Letter(d) == ALPHABET[d]
  {
  }

  /** What a letter stands for; the padding stands for nothing. */
  function Worth(letter: Byte): nat {
    if 0x41 <= letter <= 0x5A then letter - 0x41 else if 0x32 <= letter <= 0x37 then letter - 0x32 + 26 else 0
  }

  lemma WorthAt(b: Bytes, i: nat)
    requires 0 < |b| <= 5 && i < 8
    ensures Worth(Block(b)[i]) == Digit(Value(b), i)
  {
    PaddedAt(b, i);
    if i >= Letters(|b|) { HiddenZero(b, i); }
  }

  /** A block of letters, read as a number in base 32, is the block of bytes, read as one in base 256. */
  lemma BlockDecodes(b: Bytes)
    requires 0 < |b| <= 5
    ensures var r := Block(b);
      Worth(r[7]) + 0x20 * Worth(r[6]) + 0x400 * Worth(r[5]) + 0x8000 * Worth(r[4]) + 0x10_0000 * Worth(r[3])
        + 0x200_0000 * Worth(r[2]) + 0x4000_0000 * Worth(r[1]) + 0x8_0000_0000 * Worth(r[0])
      == At(b, 4) + 0x100 * At(b, 3) + 0x1_0000 * At(b, 2) + 0x100_0000 * At(b, 1) + 0x1_0000_0000 * At(b, 0)
  {
    var v := Value(b);
    forall i: nat | i < 8 ensures Worth(Block(b)[i]) == Shift(v, 7 - i) % 32 { WorthAt(b, i); }
    ShiftedOut(v);
    forall k: nat | k < 8 ensures Shift(v, k) == 32 * Shift(v, k + 1) + Shift(v, k) % 32 { ShiftNext(v, k); }
    assert Shift(v, 0) == v;
  }

  lemma {:induction false} ShiftNext(v: nat, k: nat)
    ensures Shift(v, k) == 32 * Shift(v, k + 1) + Shift(v, k) % 32
  {
    if k > 0 { ShiftNext(v / 32, k - 1); } else { assert Shift(v, 1) == Shift(v / 32, 0); }
  }

  /** The identifiers of the first two children, a file and a directory: `AA______;1` and `AE______`. */
  lemma FirstIdentifiers()
    ensures IdentifierOf(0, false) == [0x41, 0x41, 0x5F, 0x5F, 0x5F, 0x5F, 0x5F, 0x5F, 0x3B, 0x31]
    ensures IdentifierOf(1, true) == [0x41, 0x45, 0x5F, 0x5F, 0x5F, 0x5F, 0x5F, 0x5F]
  {
    assert Uvarint(0) == [0] && Uvarint(1) == [1];
    FirstBlock(0);
    FirstBlock(1);
  }

  lemma FirstBlock(x: Byte)
    requires x < 8
    ensures Block([x]) == [0x41, Letter(4 * x), 0x5F, 0x5F, 0x5F, 0x5F, 0x5F, 0x5F]
  {
    var b := [x];
    BlockDecodes(b);
    forall i: nat | 2 <= i < 8 ensures Block(b)[i] == 0x5F && Worth(Block(b)[i]) == 0 { PaddedAt(b, i); WorthAt(b, i); }
    WorthAt(b, 0);
    WorthAt(b, 1);
    PaddedAt(b, 0);
    PaddedAt(b, 1);
    assert Worth(Block(b)[0]) == 0 && Worth(Block(b)[1]) == 4 * x;
  }

  // ----- identifiers -----

  const VERSION: Bytes := [0x3B, 0x31]

  /** The encoded counter, without the mark of a file. */
  function Stem(n: nat): Bytes { Base32(Uvarint(n)) }

  /** The identifier for the `n`-th child; `;1` marks what is not a directory. */
  function IdentifierOf(n: nat, isDir: bool): Bytes {
    Stem(n) + if isDir then [] else VERSION
  }

  ghost predicate NoSemicolon(b: Bytes) { 0x3B !in b }

  lemma {:induction false} Base32Letters(b: Bytes)
    ensures NoSemicolon(Base32(b))
    decreases |b|
  {
    if |b| > 5 { Base32Letters(b[5..]); }
  }

  lemma {:induction false} Base32Len(b: Bytes)
    ensures |b| <= 10 ==> |Base32(b)| <= 16
    ensures |b| <= 5 ==> |Base32(b)| <= 8
  {
    if 5 < |b| <= 10 { Base32Len(b[5..]); }
  }

  /** Identifiers never repeat, not even between a directory and another child. */
  lemma IdentifiersDiffer(m: nat, n: nat, a: bool, b: bool)
    requires m != n
    ensures IdentifierOf(m, a) != IdentifierOf(n, b)
  {
    if IdentifierOf(m, a) == IdentifierOf(n, b) {
      SameStem(Base32(Uvarint(m)), Base32(Uvarint(n)), a, b);
    }
    if Base32(Uvarint(m)) == Base32(Uvarint(n)) {
      Base32Injective(Uvarint(m), Uvarint(n));
    }
    UvarintRoundTrip(m);
    UvarintRoundTrip(n);
    Base32Letters(Uvarint(m));
    Base32Letters(Uvarint(n));
  }

  lemma SameStem(x: Bytes, y: Bytes, a: bool, b: bool)
    requires x + (if a then [] else VERSION) == y + (if b then [] else VERSION)
    ensures NoSemicolon(x) && NoSemicolon(y) ==> x == y
  {
    var s := x + (if a then [] else VERSION);
    if a == b {
      assert x == s[..|x|] && y == s[..|y|];
    } else if a {
      assert s[|y|] == 0x3B && s == x;
    } else {
      assert s[|x|] == 0x3B && s == y;
    }
  }

  /** Identifiers from a 64-bit counter fit in a record. */
  lemma IdentifierFits(n: nat, isDir: bool)
    requires n < 0x1_0000_0000_0000_0000
    ensures 0 < |IdentifierOf(n, isDir)| <= 18
  {
    assert Pow(10) > 0x1_0000_0000_0000_0000 by {
      assert Pow(1) == 0x80 && Pow(2) == 0x4000 && Pow(3) == 0x20_0000 && Pow(4) == 0x1000_0000
        && Pow(5) == 0x8_0000_0000;
      assert Pow(6) == 0x400_0000_0000 && Pow(7) == 0x2_0000_0000_0000;
    }
    UvarintLen(n, 10);
    Base32Len(Uvarint(n));
    Base32Head(Uvarint(n));
  }

  /** The values of a uint64. */
  const UINT64 := 0x1_0000_0000_0000_0000

  lemma StemsDiffer(m: nat, n: nat)
    requires m != n
    ensures Stem(m) != Stem(n)
  {
    IdentifiersDiffer(m, n, true, true);
    assert Stem(m) + [] == Stem(m) && Stem(n) + [] == Stem(n);
  }

  class IdentifierAllocator {
    var count: nat
    /** How many identifiers were given out, and which. */
    ghost var total: nat
    ghost var given: set<Bytes>

    ghost predicate Valid()
      reads this
    {
      count == total % UINT64 && (total <= UINT64 ==> forall id | id in given :: GivenBefore(id, total))
    }

    constructor ()
      ensures Valid() && total == 0 && given == {}
    {
      count, total, given := 0, 0, {};
    }

    /** Gives out an identifier that was never given out before, as long as the 64-bit counter has not wrapped
      around. */
    method Next() returns (r: Bytes)
      requires Valid()
      modifies this
      ensures Valid() && total == old(total) + 1 && given == old(given) + {r}
      ensures old(total) < UINT64 ==> r !in old(given) && r == Stem(old(total))
      // afterwards they come again, in the same order
      ensures old(total) >= UINT64 ==> r == Stem(old(total) % UINT64)
    {
      r := Stem(count);
      assert total < UINT64 ==> count == total;
      if total < UINT64 {
        NewStem(given, total);
        GivenMore(given, total);
      }
      WrapNext(count, total);
      count := (count + 1) % UINT64;
      total, given := total + 1, given + {r};
    }
  }

  ghost predicate GivenBefore(id: Bytes, total: nat) {
    exists k: nat :: k < total && id == Stem(k)
  }

  lemma WrapNext(count: nat, total: nat)
    requires count == total % UINT64
    ensures (count + 1) % UINT64 == (total + 1) % UINT64 && (total < UINT64 ==> count == total)
  {
  }

  lemma NewStem(given: set<Bytes>, total: nat)
    requires forall id | id in given :: GivenBefore(id, total)
    ensures Stem(total) !in given
  {
    if Stem(total) in given {
      assert GivenBefore(Stem(total), total);
      var k: nat :| k < total && Stem(total) == Stem(k);
      StemsDiffer(k, total);
    }
  }

  lemma GivenMore(given: set<Bytes>, total: nat)
    requires forall id | id in given :: GivenBefore(id, total)
    ensures forall id | id in given + {Stem(total)} :: GivenBefore(id, total + 1)
  {
    forall id | id in given + {Stem(total)} ensures GivenBefore(id, total + 1) {
      if id in given {
        assert GivenBefore(id, total);
        var k: nat :| k < total && id == Stem(k);
      }
    }
  }
}
