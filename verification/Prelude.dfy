/** Types shared by all components. */
module Prelude {
  type Byte = x: int | 0 <= x < 0x100
  type Bytes = seq<Byte>

  const DOT: Bytes := [0x2E]
  const DOTDOT: Bytes := [0x2E, 0x2E]

  /** A Go uint32. */
  type Uint32 = x: int | 0 <= x < 0x1_0000_0000

  /** Some definitions are guarded by this predicate: they are only unfolded where `Unfold(true)` is asserted. */
  ghost predicate Unfold(u: bool) { true }

  datatype Option<+T> = None | Some(value: T)

  datatype Result<+T> = Ok(value: T) | Err

  /** What a read of `len` bytes at `off` yields: all of them, or up to the end. */
  function Copied(data: Bytes, off: nat, len: nat): (r: Bytes)
    ensures |r| <= len
    ensures off <= |data| ==> r <= data[off..] && (|r| == len || off + |r| == |data|)
  {
    if off >= |data| then [] else if |data| - off <= len then data[off..] else data[off..off + len]
  }

  /** What a cache slice is filed under: `len` bytes of an object from `off`. */
  datatype SliceKey = SliceKey(url: string, off: nat, len: nat)

  lemma Assoc<T>(a: seq<T>, b: seq<T>, c: seq<T>)
    ensures a + b + c == a + (b + c)
  {
  }

  /** The middle of three. */
  lemma Middle<T>(a: seq<T>, b: seq<T>, c: seq<T>)
    ensures (a + b + c)[|a|..|a| + |b|] == b
  {
  }

  lemma Three<T>(s: seq<T>, i: nat, j: nat)
    requires i <= j <= |s|
    ensures s[..i] + s[i..j] + s[j..] == s
  {
  }

  lemma InFront<T>(a: seq<T>, b: seq<T>, i: nat, j: nat)
    requires i <= j <= |a|
    ensures (a + b)[i..j] == a[i..j]
  {
  }

  lemma Snoc<T>(s: seq<T>, i: nat)
    requires i < |s|
    ensures s[..i + 1] == s[..i] + [s[i]] && s[..i + 1][..i] == s[..i]
  {
  }

  lemma InBack<T>(a: seq<T>, b: seq<T>)
    ensures (a + b)[|a|..|a| + |b|] == b
  {
  }

  lemma Within<T>(s: seq<T>, i: nat, j: nat, x: nat, y: nat)
    requires i <= j <= |s| && x <= y <= j - i
    ensures s[i..j][x..y] == s[i + x..i + y]
  {
    var part := s[i..j];
    assert forall k | 0 <= k < y - x :: part[x..y][k] == part[x + k] == s[i + x + k];
  }

  lemma Two<T>(s: seq<T>, i: nat)
    requires i <= |s|
    ensures s[..i] + s[i..] == s
  {
  }

  lemma AtBack<T>(a: seq<T>, b: seq<T>, whole: seq<T>, j: nat)
    requires a + b <= whole && j < |b|
    ensures whole[|a| + j] == b[j]
  {
    assert whole[|a| + j] == (a + b)[|a| + j];
  }

  /** The sum of `f` over the values of a map. */
  ghost function MapSum<K, T>(m: map<K, T>, f: T -> nat): nat {
    if m == map[] then 0 else var k :| k in m; f(m[k]) + MapSum(m - {k}, f)
  }

  lemma {:induction false} MapSumAny<K, T>(m: map<K, T>, f: T -> nat, k: K)
    requires k in m
    ensures MapSum(m, f) == f(m[k]) + MapSum(m - {k}, f)
    decreases |m|
  {
    var first :| first in m && MapSum(m, f) == f(m[first]) + MapSum(m - {first}, f);
    if first != k {
      MapSumAny(m - {first}, f, k);
      MapSumAny(m - {k}, f, first);
      assert m - {first} - {k} == m - {k} - {first};
    }
  }

  lemma MapSumSet<K, T>(m: map<K, T>, f: T -> nat, k: K, v: T)
    requires k in m
    ensures MapSum(m[k := v], f) + f(m[k]) == MapSum(m, f) + f(v)
  {
    MapSumAny(m, f, k);
    MapSumAny(m[k := v], f, k);
    assert m[k := v] - {k} == m - {k};
  }
}
