/** Burning and loading: the extents written by the builder (pkg/vdisc/builder.go), the
  image the loader puts together from them (pkg/vdisc/loader.go, pkg/vdisc/extent.go), and
  the image the volume would write itself (pkg/iso9660/volume.go). */
module BurnLoad {
  import opened Prelude
  import opened Sectors
  import opened Inode
  import opened Trie
  import opened Inversion
  import opened Placement
  import Concat

  /** An object of the disc: the metadata comes first, then the files in visiting order. */
  datatype File = File(url: string, data: Bytes)

  datatype Extent = Extent(prefix: nat, suffix: string, blocks: Uint32, padding: nat)

  // ----- where the objects lie -----

  function Width(f: File): nat { SectorsFor(|f.data|) }

  function StartOf(all: seq<File>, i: nat): nat
    requires i <= |all|
  {
    if i == 0 then 0 else StartOf(all, i - 1) + Width(all[i - 1])
  }

  lemma {:induction false} StartUp(all: seq<File>, i: nat, j: nat)
    requires i <= j <= |all|
    ensures StartOf(all, i) <= StartOf(all, j) && (i < j ==> StartOf(all, i) < StartOf(all, j))
  {
    if i < j { StartUp(all, i, j - 1); }
  }

  ghost predicate Fits(all: seq<File>) { StartOf(all, |all|) < 0x1_0000_0000 }

  lemma StartLba(all: seq<File>, i: nat)
    requires Fits(all) && i <= |all|
    ensures StartOf(all, i) < 0x1_0000_0000
  {
    StartUp(all, i, |all|);
  }

  /** An object filled up to whole sectors; an empty one takes a sector too. */
  function Filled(data: Bytes): (r: Bytes)
    ensures |r| == 2048 * SectorsFor(|data|)
  {
    data + Zeros(2048 * SectorsFor(|data|) - |data|)
  }

  function Image(all: seq<File>): Bytes {
    if all == [] then [] else Image(all[..|all| - 1]) + Filled(all[|all| - 1].data)
  }

  lemma ImageSnoc(all: seq<File>, n: nat)
    requires n < |all|
    ensures Image(all[..n + 1]) == Image(all[..n]) + Filled(all[n].data)
  {
    Snoc(all, n);
  }

  lemma {:induction false} ImageLen(all: seq<File>, n: nat)
    requires n <= |all|
    ensures |Image(all[..n])| == 2048 * StartOf(all, n)
  {
    if n > 0 {
      ImageLen(all, n - 1);
      ImageSnoc(all, n - 1);
    }
  }

  // ----- burning -----

  /** What the trie holds after the first `n` objects: a repeated URL keeps the last address. */
  function Located(all: seq<File>, n: nat): map<string, Lba>
    requires Fits(all) && n <= |all|
  {
    if n == 0 then map[]
    else
      StartLba(all, n - 1);
      Located(all, n - 1)[all[n - 1].url := StartOf(all, n - 1)]
  }

  /** The last of the first `n` objects with this URL. */
  ghost predicate LastOf(all: seq<File>, n: nat, i: nat) {
    i < n <= |all| && forall j | i < j < n :: all[j].url != all[i].url
  }

  /** The trie maps each URL to the address of the last object that has it. */
  lemma {:induction false} LocatedIs(all: seq<File>, n: nat, k: string)
    requires Fits(all) && n <= |all|
    ensures k in Located(all, n) ==>
      exists i: nat :: LastOf(all, n, i) && all[i].url == k && Located(all, n)[k] == StartOf(all, i)
    ensures k !in Located(all, n) ==> forall i | 0 <= i < n :: all[i].url != k
  {
    if n > 0 {
      LocatedIs(all, n - 1, k);
      StartLba(all, n - 1);
      if k == all[n - 1].url {
        assert LastOf(all, n, n - 1);
      } else if k in Located(all, n - 1) {
        var i: nat :| LastOf(all, n - 1, i) && all[i].url == k && Located(all, n - 1)[k] == StartOf(all, i);
        assert LastOf(all, n, i);
      }
    }
  }

  lemma LocatedAt(all: seq<File>, n: nat, i: nat)
    requires Fits(all) && i < n <= |all|
    ensures all[i].url in Located(all, n)
    ensures Located(all, n)[all[i].url] == StartOf(all, i) <==> LastOf(all, n, i)
  {
    var k := all[i].url;
    LocatedIs(all, n, k);
    var j: nat :| LastOf(all, n, j) && all[j].url == k && Located(all, n)[k] == StartOf(all, j);
    if i < j { StartUp(all, i, j); }
    if j < i { StartUp(all, j, i); }
  }

  lemma LocatedInjective(all: seq<File>, n: nat)
    requires Fits(all) && n <= |all|
    ensures Injective(Located(all, n))
  {
    var m := Located(all, n);
    forall k1, k2 | k1 in m && k2 in m && m[k1] == m[k2] ensures k1 == k2 {
      LocatedIs(all, n, k1);
      LocatedIs(all, n, k2);
      var i: nat :| LastOf(all, n, i) && all[i].url == k1 && m[k1] == StartOf(all, i);
      var j: nat :| LastOf(all, n, j) && all[j].url == k2 && m[k2] == StartOf(all, j);
      if i < j { StartUp(all, i, j); }
      if j < i { StartUp(all, j, i); }
    }
  }

  method FillTrie(all: seq<File>, starts: seq<Lba>) returns (trie: TrieMap)
    requires Fits(all) && |starts| == |all| && forall i | 0 <= i < |all| :: StartsAt(all, starts, i)
    ensures trie.Valid() && trie.Contents() == Located(all, |all|)
  {
    trie := new TrieMap();
    for i := 0 to |all|
      invariant trie.Valid() && fresh(trie) && fresh(trie.model.view.Keys)
      invariant trie.Contents() == Located(all, i)
    {
      assert StartsAt(all, starts, i);
      trie.Put(all[i].url, starts[i]);
    }
  }

  ghost predicate StartsAt(all: seq<File>, starts: seq<Lba>, i: nat)
    requires i < |all| == |starts|
  {
    starts[i] == StartOf(all, i)
  }

  /** A Go map lookup: a missing leaf is the zero node. */
  function Leaf(leaves: map<Lba, InvertedTrieNode>, start: Lba): InvertedTrieNode {
    if start in leaves then leaves[start] else InvertedTrieNode(0, "")
  }

  /** An extent as the builder writes it, with the builder's own sector arithmetic. */
  function ExtentFor(leaf: InvertedTrieNode, size: nat): Extent {
    var blocks := BuilderSectors(size);
    Extent(leaf.parent, leaf.content, blocks, (2048 * blocks - size) % 0x1_0000)
  }

  /** What the loader makes of an extent. */
  ghost predicate Describes(uris: seq<InvertedTrieNode>, e: Extent, all: seq<File>, i: nat)
    requires Rooted(uris) && i < |all|
  {
    e.prefix < |uris| && e.blocks == Width(all[i]) && e.padding == 2048 * Width(all[i]) - |all[i].data|
    && (LastOf(all, |all|, i) ==> Spelled(uris, e.prefix) + e.suffix == all[i].url)
    && (!LastOf(all, |all|, i) ==> Spelled(uris, e.prefix) + e.suffix == "")
  }

  lemma WidthAgrees(all: seq<File>, i: nat)
    requires Fits(all) && i < |all|
    ensures var b := BuilderSectors(|all[i].data|); b == Width(all[i]) && 0 <= 2048 * b - |all[i].data| < 0x1_0000
  {
    StartLba(all, i + 1);
    SectorCountsAgree(|all[i].data|);
  }

  lemma {:induction false} Written(uris: seq<InvertedTrieNode>, leaves: map<Lba, InvertedTrieNode>, all: seq<File>,
      i: nat, start: Lba)
    requires Fits(all) && i < |all| && start == StartOf(all, i)
    requires RoundTrips(uris, leaves, Located(all, |all|)) && uris[0].content == ""
    ensures Describes(uris, ExtentFor(Leaf(leaves, start), |all[i].data|), all, i)
  {
    WidthAgrees(all, i);
    LocatedAt(all, |all|, i);
    var m, k := Located(all, |all|), all[i].url;
    assert SpelledBack(uris, leaves, m, k);
    if !LastOf(all, |all|, i) { Lost(all, i); }
  }

  /** The address of an object whose URL comes again is not in the trie. */
  lemma Lost(all: seq<File>, i: nat)
    requires Fits(all) && i < |all| && !LastOf(all, |all|, i)
    ensures StartOf(all, i) !in Located(all, |all|).Values
  {
    var m := Located(all, |all|);
    forall k | k in m ensures m[k] != StartOf(all, i) {
      LocatedIs(all, |all|, k);
      var j: nat :| LastOf(all, |all|, j) && all[j].url == k && m[k] == StartOf(all, j);
      if i < j { StartUp(all, i, j); }
      if j < i { StartUp(all, j, i); }
    }
  }

  /** `Build`: the trie of URLs, inverted, and one extent per object. */
  method Build(all: seq<File>, starts: seq<Lba>) returns (uris: seq<InvertedTrieNode>, extents: seq<Extent>)
    requires Fits(all) && |starts| == |all| && forall i | 0 <= i < |all| :: StartsAt(all, starts, i)
    ensures Rooted(uris) && |extents| == |all|
      && forall i {:trigger Describes(uris, extents[i], all, i)} | 0 <= i < |all| :: Describes(uris, extents[i], all, i)
  {
    var trie := FillTrie(all, starts);
    LocatedInjective(all, |all|);
    var ok, branches, leaves := Invert(trie);
    uris, extents := branches, [];
    for i := 0 to |all|
      invariant |extents| == i && forall j | 0 <= j < i :: Describes(uris, extents[j], all, j) == true
    {
      assert StartsAt(all, starts, i);
      Written(uris, leaves, all, i, starts[i]);
      WidthAgrees(all, i);
      extents := extents + [ExtentFor(Leaf(leaves, starts[i]), |all[i].data|)];
    }
  }

  // ----- loading -----

  /** What storage holds under a URL. */
  type Store = string -> Bytes

  ghost function UrlOf(uris: seq<InvertedTrieNode>, e: Extent): string
    requires Rooted(uris) && e.prefix < |uris|
  {
    Spelled(uris, e.prefix) + e.suffix
  }

  /** `extent.Size`. */
  function SizeOf(e: Extent): int { if e.blocks == 0 then 0 else 2048 * (e.blocks as int) - e.padding }

  ghost predicate PrefixesOk(uris: seq<InvertedTrieNode>, extents: seq<Extent>) {
    Rooted(uris) && forall i | 0 <= i < |extents| :: extents[i].prefix < |uris| && SizeOf(extents[i]) >= 0
  }

  function PosOf(extents: seq<Extent>, n: nat): Lba
    requires n <= |extents|
  {
    if n == 0 then 0 else Wrap32(PosOf(extents, n - 1) + extents[n - 1].blocks)
  }

  /** The index of the extents by position. */
  function Indexed(extents: seq<Extent>, n: nat): map<Lba, nat>
    requires n <= |extents|
  {
    if n == 0 then map[] else Indexed(extents, n - 1)[PosOf(extents, n - 1) := n - 1]
  }

  /** The bytes one extent contributes. */
  ghost function Contributed(uris: seq<InvertedTrieNode>, e: Extent, store: Store): Bytes
    requires Rooted(uris) && e.prefix < |uris| && SizeOf(e) >= 0
  {
    if e.blocks == 0 then [] else Copied(store(UrlOf(uris, e)), 0, SizeOf(e)) + Zeros(e.padding)
  }

  ghost function Loaded(uris: seq<InvertedTrieNode>, extents: seq<Extent>, n: nat, store: Store): Bytes
    requires PrefixesOk(uris, extents) && n <= |extents|
  {
    if n == 0 then [] else Loaded(uris, extents, n - 1, store) + Contributed(uris, extents[n - 1], store)
  }

  /** An extent that contributes any bytes: it is padded, or its object is not empty. */
  ghost predicate Full(uris: seq<InvertedTrieNode>, e: Extent, store: Store) {
    Rooted(uris) && e.prefix < |uris| && (e.blocks == 0 || e.padding > 0 || store(UrlOf(uris, e)) != [])
  }

  ghost predicate AllFull(uris: seq<InvertedTrieNode>, extents: seq<Extent>, n: nat, store: Store)
    requires n <= |extents|
  {
    forall i | 0 <= i < n :: Full(uris, extents[i], store)
  }

  /** The objects one extent adds to the image: its own, and zeros if it has padding. */
  method AddParts(objects: seq<Concat.Object>, uris: seq<InvertedTrieNode>, e: Extent, store: Store)
    returns (r: seq<Concat.Object>)
    requires Rooted(uris) && e.prefix < |uris| && SizeOf(e) >= 0 && e.blocks > 0
    ensures Concat.Flat(r) == Concat.Flat(objects) + Contributed(uris, e, store)
    ensures Full(uris, e, store) && Concat.Sound(objects) ==> Concat.Sound(r)
  {
    var url := Url(uris, e.prefix, e.suffix);
    var obj := Concat.Object(Copied(store(url), 0, SizeOf(e)), None);
    r := objects + [obj];
    Concat.FlatAppend(objects, obj);
    if e.padding > 0 {
      var zeros := Concat.Object(Zeros(e.padding), None);
      Concat.FlatAppend(r, zeros);
      r := r + [zeros];
    }
    Assoc(Concat.Flat(objects), obj.data, Zeros(e.padding));
  }

  lemma LoadedStep(uris: seq<InvertedTrieNode>, extents: seq<Extent>, i: nat, store: Store)
    requires PrefixesOk(uris, extents) && i < |extents|
    ensures SizeOf(extents[i]) >= 0 && extents[i].prefix < |uris|
    ensures Loaded(uris, extents, i + 1, store)
      == Loaded(uris, extents, i, store) + Contributed(uris, extents[i], store)
    ensures extents[i].blocks == 0 ==>
      Loaded(uris, extents, i + 1, store) == Loaded(uris, extents, i, store)
      && PosOf(extents, i + 1) == PosOf(extents, i)
  {
    var before := Loaded(uris, extents, i, store);
    assert before + [] == before;
  }

  /** The extent loop of `Load`. A read of the image never gets stuck if the last object is not empty. */
  method Load(uris: seq<InvertedTrieNode>, extents: seq<Extent>, store: Store)
    returns (indices: map<Lba, nat>, objects: seq<Concat.Object>)
    requires PrefixesOk(uris, extents)
    ensures indices == Indexed(extents, |extents|)
    ensures Concat.Flat(objects) == Loaded(uris, extents, |extents|, store)
    ensures AllFull(uris, extents, |extents|, store) ==> Concat.Sound(objects)
  {
    indices, objects := map[], [];
    var pos: Lba := 0;
    LoadedNothing(uris, extents, store);
    for i := 0 to |extents|
      invariant pos == PosOf(extents, i) && indices == Indexed(extents, i)
      invariant LoadedUpTo(uris, extents, i, store, objects) == true
    {
      indices := indices[pos := i];
      if extents[i].blocks > 0 {
        objects := LoadOne(uris, extents, i, store, objects);
        pos := Wrap32(pos + extents[i].blocks);
      } else {
        LoadedNone(uris, extents, i, store, objects);
      }
    }
    LoadedAll(uris, extents, store, objects);
  }

  /** One extent of the loop. */
  method LoadOne(uris: seq<InvertedTrieNode>, extents: seq<Extent>, i: nat, store: Store, parts: seq<Concat.Object>)
    returns (objects: seq<Concat.Object>)
    requires LoadedUpTo(uris, extents, i, store, parts) == true && i < |extents| && extents[i].blocks > 0
    ensures LoadedUpTo(uris, extents, i + 1, store, objects) == true
  {
    assert Unfold(true);
    LoadedStep(uris, extents, i, store);
    objects := AddParts(parts, uris, extents[i], store);
    assert AllFull(uris, extents, i + 1, store) ==> AllFull(uris, extents, i, store) && Full(uris, extents[i], store);
  }

  /** The objects before extent `n`. (Only unfolded where `Unfold(true)` is asserted.) */
  ghost predicate LoadedUpTo(uris: seq<InvertedTrieNode>, extents: seq<Extent>, n: nat, store: Store,
      objects: seq<Concat.Object>) {
    forall u {:trigger Unfold(u)} :: Unfold(u) ==>
      PrefixesOk(uris, extents) && n <= |extents| && Concat.Flat(objects) == Loaded(uris, extents, n, store)
      && (AllFull(uris, extents, n, store) ==> Concat.Sound(objects) == true)
  }

  lemma LoadedNothing(uris: seq<InvertedTrieNode>, extents: seq<Extent>, store: Store)
    requires PrefixesOk(uris, extents)
    ensures LoadedUpTo(uris, extents, 0, store, []) == true
  {
  }

  lemma LoadedAll(uris: seq<InvertedTrieNode>, extents: seq<Extent>, store: Store, objects: seq<Concat.Object>)
    requires PrefixesOk(uris, extents) && LoadedUpTo(uris, extents, |extents|, store, objects) == true
    ensures Concat.Flat(objects) == Loaded(uris, extents, |extents|, store)
    ensures AllFull(uris, extents, |extents|, store) ==> Concat.Sound(objects)
  {
    assert Unfold(true);
  }

  lemma LoadedNone(uris: seq<InvertedTrieNode>, extents: seq<Extent>, n: nat, store: Store, objects: seq<Concat.Object>)
    requires LoadedUpTo(uris, extents, n, store, objects) == true && n < |extents| && extents[n].blocks == 0
    ensures LoadedUpTo(uris, extents, n + 1, store, objects) == true
  {
    assert Unfold(true);
    LoadedStep(uris, extents, n, store);
    assert AllFull(uris, extents, n + 1, store) ==> AllFull(uris, extents, n, store);
  }

  // ----- agreement -----

  ghost predicate Distinct(all: seq<File>) {
    forall i, j | 0 <= i < j < |all| :: all[i].url != all[j].url
  }

  ghost predicate Stored(all: seq<File>, store: Store) { forall i | 0 <= i < |all| :: store(all[i].url) == all[i].data }

  ghost predicate Burned(uris: seq<InvertedTrieNode>, extents: seq<Extent>, all: seq<File>) {
    Rooted(uris) && |extents| == |all|
    && forall i {:trigger Describes(uris, extents[i], all, i)} | 0 <= i < |all| :: Describes(uris, extents[i], all, i)
  }

  /** Every extent leads to its own object exactly if no URL is repeated. */
  lemma UrlsRight(uris: seq<InvertedTrieNode>, extents: seq<Extent>, all: seq<File>)
    requires Burned(uris, extents, all) && forall i | 0 <= i < |all| :: all[i].url != ""
    ensures (forall i | 0 <= i < |all| :: LeadsTo(uris, extents[i], all[i].url)) <==> Distinct(all)
  {
    if Distinct(all) {
      forall i | 0 <= i < |all| ensures LeadsTo(uris, extents[i], all[i].url) {
        assert Describes(uris, extents[i], all, i) && LastOf(all, |all|, i);
      }
    } else {
      var i, j :| 0 <= i < j < |all| && all[i].url == all[j].url;
      assert Describes(uris, extents[i], all, i) && !LastOf(all, |all|, i);
      assert !LeadsTo(uris, extents[i], all[i].url);
    }
  }

  /** The URL spelled back from an extent is the one given. */
  ghost predicate LeadsTo(uris: seq<InvertedTrieNode>, e: Extent, url: string) {
    Rooted(uris) && e.prefix < |uris| && UrlOf(uris, e) == url
  }

  lemma BurnedSizes(uris: seq<InvertedTrieNode>, extents: seq<Extent>, all: seq<File>)
    requires Burned(uris, extents, all)
    ensures PrefixesOk(uris, extents)
  {
    forall i | 0 <= i < |extents| ensures extents[i].prefix < |uris| && SizeOf(extents[i]) >= 0 {
      assert Describes(uris, extents[i], all, i);
    }
  }

  /** The loader's position before each extent is the object's address on the volume. */
  lemma {:induction false} PosIsStart(uris: seq<InvertedTrieNode>, extents: seq<Extent>, all: seq<File>, n: nat)
    requires Burned(uris, extents, all) && Fits(all) && n <= |all|
    ensures PosOf(extents, n) == StartOf(all, n)
  {
    StartLba(all, n);
    if n > 0 {
      PosIsStart(uris, extents, all, n - 1);
      assert Describes(uris, extents[n - 1], all, n - 1);
    }
  }

  /** The loader files every extent under the address its object has on the volume. */
  lemma {:induction false} IndexedAt(uris: seq<InvertedTrieNode>, extents: seq<Extent>, all: seq<File>, n: nat, i: nat)
    requires Burned(uris, extents, all) && Fits(all) && i < n <= |all|
    ensures StartOf(all, i) in Indexed(extents, n) && Indexed(extents, n)[StartOf(all, i)] == i
    ensures |Indexed(extents, n)| <= n
  {
    PosIsStart(uris, extents, all, n - 1);
    if i < n - 1 {
      IndexedAt(uris, extents, all, n - 1, i);
      StartUp(all, i, n - 1);
    } else if n > 1 {
      IndexedAt(uris, extents, all, n - 1, 0);
    }
  }

  ghost predicate Contributes(uris: seq<InvertedTrieNode>, extents: seq<Extent>, all: seq<File>, store: Store, i: nat)
    requires i < |all| == |extents|
  {
    Rooted(uris) && extents[i].prefix < |uris| && SizeOf(extents[i]) >= 0
    && Contributed(uris, extents[i], store) == Filled(all[i].data)
  }

  lemma ContributedIs(uris: seq<InvertedTrieNode>, extents: seq<Extent>, all: seq<File>, i: nat, store: Store)
    requires Burned(uris, extents, all) && Distinct(all) && Stored(all, store) && i < |all|
    ensures Contributes(uris, extents, all, store, i)
  {
    assert Describes(uris, extents[i], all, i) && LastOf(all, |all|, i);
    assert SizeOf(extents[i]) == |all[i].data| && Copied(all[i].data, 0, |all[i].data|) == all[i].data;
  }

  /** No extent of a burned disc is empty: an empty object is all padding. */
  lemma BurnedFull(uris: seq<InvertedTrieNode>, extents: seq<Extent>, all: seq<File>, store: Store)
    requires Burned(uris, extents, all) && Distinct(all) && Stored(all, store)
    ensures AllFull(uris, extents, |extents|, store)
  {
    forall i | 0 <= i < |extents| ensures Full(uris, extents[i], store) {
      assert Describes(uris, extents[i], all, i) && LastOf(all, |all|, i);
    }
  }

  /** The loaded image is every object in order, each filled up with zeros to whole sectors. */
  lemma {:induction false} LoadedIsImage(uris: seq<InvertedTrieNode>, extents: seq<Extent>, all: seq<File>, n: nat,
      store: Store)
    requires PrefixesOk(uris, extents) && n <= |all| == |extents|
    requires forall i | 0 <= i < |all| :: Contributes(uris, extents, all, store, i)
    ensures Loaded(uris, extents, n, store) == Image(all[..n])
  {
    if n > 0 {
      LoadedIsImage(uris, extents, all, n - 1, store);
      assert Contributes(uris, extents, all, store, n - 1);
      LoadedStep(uris, extents, n - 1, store);
      ImageSnoc(all, n - 1);
    }
  }

  /** The metadata takes whole sectors. */
  ghost predicate MetaOk(all: seq<File>) { all != [] && all[0].data != [] && |all[0].data| % 2048 == 0 }

  /** With addresses from the layout of the volume, the files start where the image has them. */
  lemma {:induction false} LayoutAgrees(plan: Plan, all: seq<File>, f: nat)
    requires |all| == |plan.files| + 1 && MetaOk(all) && |all[0].data| == 2048 * FileStart(plan, 0)
    requires forall g {:trigger plan.files[g]} | 0 <= g < |plan.files| :: plan.files[g] == |all[g + 1].data|
    requires f <= |plan.files|
    ensures StartOf(all, f + 1) == FileStart(plan, f)
  {
    if f == 0 {
      assert StartOf(all, 0) == 0;
    } else {
      LayoutAgrees(plan, all, f - 1);
    }
  }

  /** Whatever storage holds the objects, the loaded image is each of them, filled up with zeros to whole sectors. */
  lemma LoadAgrees(uris: seq<InvertedTrieNode>, extents: seq<Extent>, all: seq<File>, store: Store)
    requires Burned(uris, extents, all) && Distinct(all) && Stored(all, store)
    ensures PrefixesOk(uris, extents) && Loaded(uris, extents, |extents|, store) == Image(all)
  {
    BurnedSizes(uris, extents, all);
    forall i | 0 <= i < |all| ensures Contributes(uris, extents, all, store, i) {
      ContributedIs(uris, extents, all, i, store);
    }
    LoadedIsImage(uris, extents, all, |all|, store);
    assert all[..|all|] == all;
  }

  // ----- the volume's own image -----

  ghost predicate NoneEmpty(all: seq<File>, n: nat)
    requires n <= |all|
  {
    forall i | 0 <= i < n :: all[i].data != []
  }

  /** What the volume writes: all of the image if no file is empty; without its last sector if only the last file
    is; else an address check fails. */
  function OwnImage(all: seq<File>): Result<Bytes>
    requires all != []
  {
    if exists i :: 0 <= i < |all| - 1 && all[i].data == [] then Err
    else Ok(Image(if all[|all| - 1].data == [] then all[..|all| - 1] else all))
  }

  /** It is the loaded image exactly if no file is empty. */
  lemma OwnImageIs(all: seq<File>)
    requires all != []
    ensures OwnImage(all) == Ok(Image(all)) <==> NoneEmpty(all, |all|)
  {
    var last := |all| - 1;
    if all[last].data == [] {
      ImageLen(all, last);
      ImageLen(all, |all|);
      assert all[..|all|] == all;
    }
  }

  /** `Volume.WriteTo`, after the metadata; an error stands for a failed address check. */
  method WriteVolume(all: seq<File>, starts: seq<Lba>) returns (r: Result<Bytes>)
    requires Fits(all) && MetaOk(all) && |starts| == |all| && forall i | 0 <= i < |all| :: StartsAt(all, starts, i)
    ensures r == OwnImage(all)
  {
    var w := all[0].data;
    FirstImage(all);
    for i := 1 to |all|
      invariant Progress(all, i, w) == true
    {
      assert StartsAt(all, starts, i);
      if starts[i] == 0 {
        StartUp(all, 0, i);
        continue;
      }
      CheckIs(all, i, w);
      if |w| % 2048 != 0 || Wrap32(|w| / 2048) != starts[i] {
        assert all[i - 1].data == [];
        return Err;
      }
      ProgressNext(all, i, w);
      w := w + all[i].data;
      w := w + Zeros(PadLen(|w|));
    }
    assert all[..|all|] == all;
    r := Ok(w);
  }

  /** All is well so far, but for a last file that is empty. */
  ghost predicate Progress(all: seq<File>, n: nat, w: Bytes) {
    0 < n <= |all| && NoneEmpty(all, n - 1) && w == Image(all[..if all[n - 1].data == [] then n - 1 else n])
  }

  lemma FirstImage(all: seq<File>)
    requires MetaOk(all)
    ensures Progress(all, 1, all[0].data) == true
  {
    ImageSnoc(all, 0);
    assert all[..0] == [] && [] + Filled(all[0].data) == Filled(all[0].data) == all[0].data;
  }

  lemma FilledIsPadded(data: Bytes)
    requires data != []
    ensures Padded(data) == Filled(data)
  {
  }

  /** The address check passes exactly if the file before is not empty. */
  lemma CheckIs(all: seq<File>, i: nat, w: Bytes)
    requires Fits(all) && Progress(all, i, w) == true && i < |all|
    ensures (|w| % 2048 == 0 && Wrap32(|w| / 2048) == StartOf(all, i)) <==> all[i - 1].data != []
  {
    StartLba(all, i);
    ImageLen(all, i);
    ImageLen(all, i - 1);
    SectorCheck(|w|, StartOf(all, i));
  }

  lemma SectorCheck(n: nat, start: nat)
    requires start < 0x1_0000_0000 && n <= 2048 * start
    ensures (n % 2048 == 0 && Wrap32(n / 2048) == start) <==> n == 2048 * start
  {
  }

  lemma FullNext(all: seq<File>, i: nat, w: Bytes)
    requires i < |all| && w == Image(all[..i]) && all[i].data != []
    ensures w + all[i].data + Zeros(PadLen(|w + all[i].data|)) == Image(all[..i + 1])
  {
    ImageLen(all, i);
    WholeSectors(StartOf(all, i));
    ImageSnoc(all, i);
    PadAfter(w, all[i].data);
    FilledIsPadded(all[i].data);
  }

  lemma EmptyNext(all: seq<File>, i: nat, w: Bytes)
    requires i < |all| && w == Image(all[..i]) && all[i].data == []
    ensures w + all[i].data + Zeros(PadLen(|w + all[i].data|)) == w
  {
    ImageLen(all, i);
    WholeSectors(StartOf(all, i));
    assert w + all[i].data == w;
  }

  /** One turn of the file loop. */
  lemma ProgressNext(all: seq<File>, i: nat, w: Bytes)
    requires Progress(all, i, w) == true && i < |all| && all[i - 1].data != []
    ensures Progress(all, i + 1, w + all[i].data + Zeros(PadLen(|w + all[i].data|))) == true
  {
    if all[i].data != [] { FullNext(all, i, w); } else { EmptyNext(all, i, w); }
  }

  // ----- where the code fails -----

  /** Two files with one URL: the extent of the first leads nowhere. */
  lemma RepeatedUrl(uris: seq<InvertedTrieNode>, extents: seq<Extent>, meta: Bytes)
    requires Burned(uris, extents, [File("m", meta), File("a", [1]), File("a", [2])])
    ensures LeadsTo(uris, extents[1], "") && LeadsTo(uris, extents[2], "a")
  {
    var all := [File("m", meta), File("a", [1]), File("a", [2])];
    assert Describes(uris, extents[1], all, 1) && Describes(uris, extents[2], all, 2);
    assert all[1].url == all[2].url;
    assert !LastOf(all, 3, 1) && LastOf(all, 3, 2);
  }

  /** An empty file before another one: the volume's own writer stops at an address check. */
  lemma EmptyFile(meta: Bytes)
    ensures OwnImage([File("m", meta), File("a", []), File("b", [1])]) == Err
  {
    var all := [File("m", meta), File("a", []), File("b", [1])];
    assert all[1].data == [];
  }
}
