/** The URI radix trie of pkg/vdisc/trie.go.

  Keys are sequences of runes; Dafny's `char` is a Unicode scalar value, so a
  `string` is exactly the rune sequence of a valid UTF-8 Go string, and a byte
  offset into a node's content becomes a rune index.

  Nodes live on the heap and are split and extended in place. The shape of the
  structure is stated without recursion: every prefix of every spelled key is a
  *position*, and the ghost map `owner` says which node that position lies in.
  The lemmas work on a ghost model of the node fields, so each in-place update
  is one pure step on that model. */
module Trie {
  import opened Prelude
  import opened Sectors

  class TrieNode {
    var content: string
    var terminal: bool
    var value: Lba
    var children: map<char, TrieNode>

    constructor (content: string, terminal: bool, value: Lba, children: map<char, TrieNode>)
      ensures this.content == content && this.terminal == terminal && this.value == value && this.children == children
    {
      this.content, this.terminal, this.value, this.children := content, terminal, value, children;
    }

    /** Keeps `idx` runes and hands the rest, with the flag, the value and the children, to a new child. */
    method CutAt(idx: nat) returns (other: TrieNode)
      requires idx < |content|
      modifies this
      ensures fresh(other) && other.content == old(content)[idx..] && other.children == old(children)
      ensures other.terminal == old(terminal) && other.value == old(value)
      ensures content == old(content)[..idx] && children == map[old(content)[idx] := other]
      ensures !terminal && value == old(value)
    {
      other := new TrieNode(content[idx..], terminal, value, children);
      children := map[content[idx] := other];
      content := content[..idx];
      terminal := false;
    }
  }

  /** The fields of one node at one moment, with what its proper ancestors spell. */
  datatype NodeView = NodeView(
    prefix: string, content: string, terminal: bool, value: Lba, children: map<char, TrieNode>)
  {
    ghost function Full(): string { prefix + content }
  }

  /** A whole trie at one moment. */
  datatype Model = Model(
    root: TrieNode,
    view: map<TrieNode, NodeView>,
    owner: map<string, TrieNode>,
    contents: map<string, Lba>)
  {
    /** The first position of `n`: the empty string for the root, else one rune into its content. */
    ghost function First(n: TrieNode): nat
      requires n in view
    {
      if n == root then 0 else |view[n].prefix| + 1
    }

    /** `n` owns every position from its first one to the end of its content. */
    ghost predicate NodeOk(n: TrieNode)
      requires n in view
    {
      forall k: nat {:trigger view[n].Full()[..k]} | First(n) <= k <= |view[n].Full()| ::
        view[n].Full()[..k] in owner && owner[view[n].Full()[..k]] == n
    }

    /** A position lies inside the content of the node that owns it. */
    ghost predicate PositionOk(p: string) {
      p in owner ==> owner[p] in view && p <= view[owner[p]].Full() && First(owner[p]) <= |p|
    }

    /** Children are indexed by the first rune of their content. */
    ghost predicate ChildOk(n: TrieNode, r: char)
      requires n in view
    {
      r in view[n].children ==>
        var c := view[n].children[r];
        c != root && c in view && view[c].prefix == view[n].Full() && view[c].content != "" && view[c].content[0] == r
    }

    ghost predicate ParentOk(n: TrieNode)
      requires n in view
    {
      n != root ==>
        var v := view[n];
        && v.content != ""
        && v.prefix in owner
        && owner[v.prefix] in view
        && view[owner[v.prefix]].Full() == v.prefix
        && v.content[0] in view[owner[v.prefix]].children
        && view[owner[v.prefix]].children[v.content[0]] == n
    }

    ghost predicate Shape() {
      && root in view && view[root].prefix == ""
      && (forall p {:trigger PositionOk(p)} :: PositionOk(p))
      && (forall n {:trigger NodeOk(n)} | n in view :: NodeOk(n))
      && (forall n, r {:trigger ChildOk(n, r)} | n in view :: ChildOk(n, r))
      && (forall n {:trigger ParentOk(n)} | n in view :: ParentOk(n))
    }

    /** A terminal node spells a stored key with its value ... */
    ghost predicate EndOk(n: TrieNode)
      requires n in view
    {
      view[n].terminal ==> view[n].Full() in contents && contents[view[n].Full()] == view[n].value
    }

    /** ... and every stored key is spelled by a terminal node. */
    ghost predicate KeyOk(k: string) {
      k in contents ==> k in owner && owner[k] in view && view[owner[k]].Full() == k && view[owner[k]].terminal
    }

    ghost predicate Spells() {
      && (forall n {:trigger EndOk(n)} | n in view :: EndOk(n))
      && (forall k {:trigger KeyOk(k)} :: KeyOk(k))
    }

    /** A node earns its place: it ends a key, or branches, or is the root of an empty trie. */
    ghost predicate Packed(n: TrieNode)
      requires n in view
    {
      view[n].terminal || |view[n].children| >= 2 || (n == root && view[n].content == "" && view[n].children == map[])
    }

    ghost predicate AllPacked(except: set<TrieNode>) {
      forall n {:trigger Packed(n)} | n in view && n !in except :: Packed(n)
    }

    /** The invariant of a trie, `except` being still under construction. Lemmas that need
      its clauses assert `Unfold(true)`; elsewhere the verifier carries it whole. */
    ghost predicate Ok(except: set<TrieNode>) {
      forall u {:trigger Unfold(u)} :: Unfold(u) ==> Shape() && Spells() && AllPacked(except)
    }

    /** Reading `p` from the root ends in `n`, `idx` runes into its content. */
    ghost predicate At(p: string, n: TrieNode, idx: int) {
      p in owner && owner[p] == n && n in view && 0 <= idx <= |view[n].content|
        && p == view[n].prefix + view[n].content[..idx]
    }
  }

  // ----- reading: one rune at a time -----

  lemma Facts(m: Model, p: string)
    requires m.Shape() && p in m.owner
    ensures var n := m.owner[p];
      n in m.view && p <= m.view[n].Full() && m.First(n) <= |p| && m.NodeOk(n) && m.ParentOk(n)
  {
    assert m.PositionOk(p);
    assert m.NodeOk(m.owner[p]) && m.ParentOk(m.owner[p]);
  }

  /** Where one more rune leads from a position, decided by the owning node alone. */
  lemma StepFrom(m: Model, p: string, r: char)
    requires m.Shape() && p in m.owner && m.owner[p] in m.view
    ensures var v := m.view[m.owner[p]];
      if |p| < |v.Full()| then
        (p + [r] in m.owner <==> r == v.Full()[|p|]) && (p + [r] in m.owner ==> m.owner[p + [r]] == m.owner[p])
      else
        p == v.Full() && (p + [r] in m.owner <==> r in v.children)
          && (p + [r] in m.owner ==> m.owner[p + [r]] == v.children[r])
  {
    var n := m.owner[p];
    var v := m.view[n];
    var q := p + [r];
    Facts(m, p);
    if |p| < |v.Full()| && r == v.Full()[|p|] {
      assert q == v.Full()[..|p| + 1];
    }
    if |p| == |v.Full()| && r in v.children {
      var c := v.children[r];
      assert m.ChildOk(n, r) && m.NodeOk(c);
      assert q == m.view[c].Full()[..|p| + 1];
    }
    if q in m.owner {
      var o := m.owner[q];
      Facts(m, q);
      if m.First(o) <= |p| {
        assert p == m.view[o].Full()[..|p|];
      } else {
        assert p == q[..|p|] == m.view[o].prefix;
      }
    }
  }

  /** The comparison the loops make on one rune decides the next position. */
  lemma Walk(m: Model, except: set<TrieNode>, p: string, n: TrieNode, idx: nat, r: char)
    requires m.Ok(except) == true && m.At(p, n, idx)
    ensures idx < |m.view[n].content| && r == m.view[n].content[idx] ==> m.At(p + [r], n, idx + 1)
    ensures idx < |m.view[n].content| && r != m.view[n].content[idx] ==> p + [r] !in m.owner
    ensures idx == |m.view[n].content| ==> p == m.view[n].Full()
    ensures idx == |m.view[n].content| && r in m.view[n].children ==> m.At(p + [r], m.view[n].children[r], 1)
    ensures idx == |m.view[n].content| && r !in m.view[n].children ==> p + [r] !in m.owner
  {
    assert Unfold(true);
    StepFrom(m, p, r);
    assert m.ChildOk(n, r);
    if idx < |m.view[n].content| {
      assert m.view[n].Full()[|p|] == m.view[n].content[idx];
      assert m.view[n].content[..idx + 1] == m.view[n].content[..idx] + [m.view[n].content[idx]];
    } else {
      assert m.view[n].content[..idx] == m.view[n].content;
    }
  }

  lemma AtRoot(m: Model)
    requires m.Ok({}) == true
    ensures m.At("", m.root, 0)
  {
    assert Unfold(true);
    assert m.NodeOk(m.root) && m.view[m.root].Full()[..0] == "";
  }

  lemma {:induction false} PrefixClosed(m: Model, p: string, k: nat)
    requires m.Shape() && p in m.owner && k <= |p|
    ensures p[..k] in m.owner
    decreases |p|
  {
    if k == |p| {
      assert p[..k] == p;
    } else {
      var q := p[..|p| - 1];
      Facts(m, p);
      var n := m.owner[p];
      if m.First(n) <= |q| {
        assert q == m.view[n].Full()[..|q|];
      } else {
        assert q == m.view[n].prefix;
      }
      PrefixClosed(m, q, k);
      assert q[..k] == p[..k];
    }
  }

  /** A key one of whose prefixes is not a position was never stored. */
  lemma Absent(m: Model, key: string, k: nat)
    requires m.Ok({}) == true && k <= |key| && key[..k] !in m.owner
    ensures key !in m.contents
  {
    assert Unfold(true);
    assert m.KeyOk(key);
    if key in m.contents { PrefixClosed(m, key, k); }
  }

  /** Once the whole key is read, the node's flag and the index decide membership. */
  lemma Arrived(m: Model, key: string, n: TrieNode, idx: int)
    requires m.Ok({}) == true && m.At(key, n, idx)
    ensures m.view[n].terminal && idx == |m.view[n].content| <==> key in m.contents
    ensures key in m.contents ==> m.contents[key] == m.view[n].value
  {
    assert Unfold(true);
    Facts(m, key);
    assert m.KeyOk(key) && m.EndOk(n);
    if idx == |m.view[n].content| { assert key == m.view[n].Full(); }
  }

  /** Two nodes never spell the same key. */
  lemma OwnsFull(m: Model, n: TrieNode)
    requires m.Shape() && n in m.view
    ensures m.view[n].Full() in m.owner && m.owner[m.view[n].Full()] == n
  {
    assert m.ParentOk(n) && m.NodeOk(n);
    assert m.view[n].Full()[..|m.view[n].Full()|] == m.view[n].Full();
  }

  // ----- the in-place updates, as steps on the model -----

  /** Cut the owner of `p` in two at `p`; `other` takes the tail, the flag, the value and the children. */
  ghost function SplitModel(m: Model, p: string, other: TrieNode): Model
    requires p in m.owner && m.owner[p] in m.view && |m.view[m.owner[p]].prefix| <= |p| < |m.view[m.owner[p]].Full()|
  {
    var n := m.owner[p];
    var v := m.view[n];
    m.(view := m.view[other := NodeView(p, v.Full()[|p|..], v.terminal, v.value, v.children)]
                     [n := NodeView(v.prefix, p[|v.prefix|..], false, v.value, map[v.Full()[|p|] := other])],
       owner := map q | q in m.owner :: if m.owner[q] == n && |q| > |p| then other else m.owner[q])
  }

  ghost predicate CanSplit(m: Model, p: string, other: TrieNode) {
    && m.Shape() && p in m.owner && m.owner[p] in m.view && other !in m.view
    && |m.view[m.owner[p]].prefix| <= |p| < |m.view[m.owner[p]].Full()|
  }

  lemma SplitFulls(m: Model, p: string, other: TrieNode)
    requires CanSplit(m, p, other)
    ensures var m' := SplitModel(m, p, other);
      m'.view[m.owner[p]].Full() == p && m'.view[other].Full() == m.view[m.owner[p]].Full()
  {
    Facts(m, p);
  }

  lemma SplitNode(m: Model, p: string, other: TrieNode, x: TrieNode)
    requires CanSplit(m, p, other) && x in SplitModel(m, p, other).view
    ensures SplitModel(m, p, other).NodeOk(x)
  {
    var n, m' := m.owner[p], SplitModel(m, p, other);
    SplitFulls(m, p, other);
    Facts(m, p);
    if x == n {
      forall k: nat | k <= |p| ensures p[..k] == m.view[n].Full()[..k] {}
    } else if x != other {
      assert m.NodeOk(x);
    }
  }

  lemma SplitParent(m: Model, p: string, other: TrieNode, x: TrieNode)
    requires CanSplit(m, p, other) && x in SplitModel(m, p, other).view
    ensures SplitModel(m, p, other).ParentOk(x)
  {
    var v := m.view[m.owner[p]];
    SplitFulls(m, p, other);
    Facts(m, p);
    if x != other {
      assert m.ParentOk(x);
      assert x == m.owner[p] && x != m.root ==> p[|v.prefix|] == v.Full()[|v.prefix|] == v.content[0];
    }
  }

  lemma SplitChild(m: Model, p: string, other: TrieNode, x: TrieNode, r: char)
    requires CanSplit(m, p, other) && x in SplitModel(m, p, other).view
    ensures SplitModel(m, p, other).ChildOk(x, r)
  {
    var n := m.owner[p];
    var v := m.view[n];
    SplitFulls(m, p, other);
    Facts(m, p);
    assert n != m.root ==> p[|v.prefix|] == v.Full()[|v.prefix|] == v.content[0];
    assert m.ChildOk(if x == other then n else x, r);
  }

  lemma SplitShape(m: Model, p: string, other: TrieNode)
    requires CanSplit(m, p, other)
    ensures SplitModel(m, p, other).Shape()
  {
    var m' := SplitModel(m, p, other);
    SplitFulls(m, p, other);
    forall q ensures m'.PositionOk(q) { assert m.PositionOk(q) && m.PositionOk(p); }
    forall x | x in m'.view ensures m'.NodeOk(x) { SplitNode(m, p, other, x); }
    forall x, r {:trigger m'.ChildOk(x, r)} | x in m'.view ensures m'.ChildOk(x, r) { SplitChild(m, p, other, x, r); }
    forall x {:trigger m'.ParentOk(x)} | x in m'.view ensures m'.ParentOk(x) { SplitParent(m, p, other, x); }
  }

  /** Splitting keeps the shape, the spelled keys and the packing of every other node. */
  lemma SplitStep(m: Model, p: string, other: TrieNode)
    requires m.Ok({}) == true && p in m.owner && m.owner[p] in m.view && other !in m.view
    requires |m.view[m.owner[p]].prefix| <= |p| < |m.view[m.owner[p]].Full()|
    ensures var m', n := SplitModel(m, p, other), m.owner[p];
      m'.Ok({n}) == true && m'.At(p, n, |m'.view[n].content|) && m'.view[n].children.Keys == {m.view[n].Full()[|p|]}
  {
    assert Unfold(true);
    var n, m' := m.owner[p], SplitModel(m, p, other);
    SplitFulls(m, p, other);
    SplitShape(m, p, other);
    forall x | x in m'.view ensures m'.EndOk(x) { assert m.EndOk(if x == other then n else x); }
    forall k ensures m'.KeyOk(k) { assert m.KeyOk(k); }
    assert m.Packed(n);
    forall x | x in m'.view && x != n ensures m'.Packed(x) { if x != other { assert m.Packed(x); } }
  }

  /** Hang a fresh one-rune node below the node that ends at `p`. */
  ghost function LeafModel(m: Model, p: string, r: char, leaf: TrieNode): Model
    requires p in m.owner && m.owner[p] in m.view
  {
    var n := m.owner[p];
    m.(view := m.view[leaf := NodeView(p, [r], false, 0, map[])]
                     [n := m.view[n].(children := m.view[n].children[r := leaf])],
       owner := m.owner[p + [r] := leaf])
  }

  ghost predicate CanHang(m: Model, p: string, r: char, leaf: TrieNode) {
    && m.Shape() && p in m.owner && m.owner[p] in m.view && leaf !in m.view
    && p == m.view[m.owner[p]].Full() && r !in m.view[m.owner[p]].children
  }

  lemma LeafLinks(m: Model, p: string, r: char, leaf: TrieNode, x: TrieNode, c: char)
    requires CanHang(m, p, r, leaf) && x in LeafModel(m, p, r, leaf).view
    ensures var m' := LeafModel(m, p, r, leaf); m'.NodeOk(x) && m'.ParentOk(x) && m'.ChildOk(x, c)
  {
    StepFrom(m, p, r);
    var m' := LeafModel(m, p, r, leaf);
    if x == leaf {
      assert m'.view[x].Full() == p + [r] && (p + [r])[..|p| + 1] == p + [r];
    } else {
      assert m'.view[x].Full() == m.view[x].Full();
      assert m.NodeOk(x) && m.ParentOk(x) && m.ChildOk(x, c);
    }
  }

  lemma LeafStep(m: Model, p: string, r: char, leaf: TrieNode)
    requires p in m.owner && m.owner[p] in m.view && m.Ok({m.owner[p]}) == true && leaf !in m.view
    requires p == m.view[m.owner[p]].Full() && r !in m.view[m.owner[p]].children
    requires m.view[m.owner[p]].terminal || m.view[m.owner[p]].children != map[]
    ensures LeafModel(m, p, r, leaf).Ok({leaf}) == true && LeafModel(m, p, r, leaf).At(p + [r], leaf, 1)
  {
    assert Unfold(true);
    var n, m' := m.owner[p], LeafModel(m, p, r, leaf);
    StepFrom(m, p, r);
    forall q ensures m'.PositionOk(q) { assert m.PositionOk(q); }
    forall x {:trigger m'.NodeOk(x)} {:trigger m'.ParentOk(x)} | x in m'.view ensures m'.NodeOk(x) && m'.ParentOk(x) {
      LeafLinks(m, p, r, leaf, x, r);
    }
    forall x, c {:trigger m'.ChildOk(x, c)} | x in m'.view ensures m'.ChildOk(x, c) { LeafLinks(m, p, r, leaf, x, c); }
    forall x | x in m'.view ensures m'.EndOk(x) { if x != leaf { assert m.EndOk(x); } }
    forall k ensures m'.KeyOk(k) { assert m.KeyOk(k); }
    forall x | x in m'.view && x != leaf ensures m'.Packed(x) { if x != n { assert m.Packed(x); } }
  }

  /** Grow the childless, non-terminal node that ends at `p` by one rune. */
  ghost function ExtendModel(m: Model, p: string, r: char): Model
    requires p in m.owner && m.owner[p] in m.view
  {
    var n := m.owner[p];
    m.(view := m.view[n := m.view[n].(content := m.view[n].content + [r])], owner := m.owner[p + [r] := n])
  }

  ghost predicate CanExtend(m: Model, p: string) {
    && m.Shape() && p in m.owner && m.owner[p] in m.view
    && p == m.view[m.owner[p]].Full() && m.view[m.owner[p]].children == map[]
  }

  lemma ExtendLinks(m: Model, p: string, r: char, x: TrieNode, c: char)
    requires CanExtend(m, p) && x in m.view
    ensures var m' := ExtendModel(m, p, r); m'.NodeOk(x) && m'.ParentOk(x) && m'.ChildOk(x, c)
  {
    StepFrom(m, p, r);
    var n, m', q := m.owner[p], ExtendModel(m, p, r), p + [r];
    assert m'.view[n].Full() == q;
    assert m.NodeOk(x) && m.ParentOk(x) && m.ChildOk(x, c);
    if x == n {
      forall k: nat | k <= |q| ensures q[..k] == if k <= |p| then p[..k] else q {}
    }
  }

  lemma ExtendStep(m: Model, p: string, r: char)
    requires p in m.owner && m.owner[p] in m.view && m.Ok({m.owner[p]}) == true
    requires p == m.view[m.owner[p]].Full() && m.view[m.owner[p]].children == map[] && !m.view[m.owner[p]].terminal
    ensures var m', n := ExtendModel(m, p, r), m.owner[p]; m'.Ok({n}) == true && m'.At(p + [r], n, |m'.view[n].content|)
  {
    assert Unfold(true);
    var n, m' := m.owner[p], ExtendModel(m, p, r);
    StepFrom(m, p, r);
    assert m'.view[n].Full() == p + [r];
    forall q ensures m'.PositionOk(q) { assert m.PositionOk(q); }
    forall x {:trigger m'.NodeOk(x)} {:trigger m'.ParentOk(x)} | x in m'.view ensures m'.NodeOk(x) && m'.ParentOk(x) {
      ExtendLinks(m, p, r, x, r);
    }
    forall x, c {:trigger m'.ChildOk(x, c)} | x in m'.view ensures m'.ChildOk(x, c) { ExtendLinks(m, p, r, x, c); }
    forall x | x in m'.view ensures m'.EndOk(x) { assert m.EndOk(x); }
    forall k ensures m'.KeyOk(k) { assert m.KeyOk(k); }
    forall x | x in m'.view && x != n ensures m'.Packed(x) { assert m.Packed(x); }
  }

  /** Mark the node that ends at `key`: one ordinary map update. */
  ghost function EndModel(m: Model, key: string, value: Lba): Model
    requires key in m.owner && m.owner[key] in m.view
  {
    var n := m.owner[key];
    m.(view := m.view[n := m.view[n].(terminal := true, value := value)], contents := m.contents[key := value])
  }

  lemma EndStep(m: Model, key: string, value: Lba)
    requires key in m.owner && m.owner[key] in m.view && key == m.view[m.owner[key]].Full()
    requires m.Ok({m.owner[key]}) == true
    ensures EndModel(m, key, value).Ok({}) == true
  {
    assert Unfold(true);
    var n, m' := m.owner[key], EndModel(m, key, value);
    forall q ensures m'.PositionOk(q) { assert m.PositionOk(q); }
    forall x {:trigger m'.NodeOk(x)} {:trigger m'.ParentOk(x)} | x in m'.view ensures m'.NodeOk(x) && m'.ParentOk(x) {
      assert m.NodeOk(x) && m.ParentOk(x) && m'.view[x].Full() == m.view[x].Full();
    }
    forall x, c {:trigger m'.ChildOk(x, c)} | x in m'.view ensures m'.ChildOk(x, c) { assert m.ChildOk(x, c); }
    forall x | x in m'.view ensures m'.EndOk(x) { assert m.EndOk(x); OwnsFull(m, x); }
    forall k ensures m'.KeyOk(k) { assert m.KeyOk(k); }
    forall x | x in m'.view ensures m'.Packed(x) { if x != n { assert m.Packed(x); } }
  }

  lemma EmptyOk(root: TrieNode)
    ensures Model(root, map[root := NodeView("", "", false, 0, map[])], map["" := root], map[]).Ok({}) == true
  {
    assert Unfold(true);
  }

  /** More nodes may be counted as unfinished. */
  lemma Loosen(m: Model, except: set<TrieNode>, more: set<TrieNode>)
    requires m.Ok(except) == true && except <= more
    ensures m.Ok(more) == true
  {
    assert Unfold(true);
  }

  /** The heap agrees with the model. */
  ghost predicate Linked(view: map<TrieNode, NodeView>)
    reads view.Keys
  {
    forall n {:trigger view[n]} | n in view :: Same(n, view[n])
  }

  ghost predicate Same(n: TrieNode, v: NodeView)
    reads n
  {
    n.content == v.content && n.terminal == v.terminal && n.value == v.value && n.children == v.children
  }

  lemma TakeNext(s: string, i: nat)
    requires i < |s|
    ensures s[..i + 1] == s[..i] + [s[i]]
  {
  }

  /** Only fresh nodes have joined. */
  twostate predicate Grown(before: map<TrieNode, NodeView>, new after: map<TrieNode, NodeView>) {
    forall n {:trigger n in after} | n in after :: n in before || fresh(n)
  }

  class TrieMap {
    var root: TrieNode
    ghost var model: Model

    ghost predicate Valid()
      reads this, model.view.Keys
    {
      root == model.root && Linked(model.view) && model.Ok({}) == true
    }

    ghost function Contents(): map<string, Lba>
      reads this
    {
      model.contents
    }

    constructor ()
      ensures Valid() && fresh(model.view.Keys) && Contents() == map[]
    {
      var node := new TrieNode("", false, 0, map[]);
      root := node;
      model := Model(node, map[node := NodeView("", "", false, 0, map[])], map["" := node], map[]);
      EmptyOk(node);
    }

    method Get(key: string) returns (value: Lba, ok: bool)
      requires Valid()
      ensures ok <==> key in Contents()
      ensures value == if ok then Contents()[key] else 0
    {
      var node := root;
      var contentIdx := 0;
      AtRoot(model);
      for i := 0 to |key|
        invariant model.At(key[..i], node, contentIdx)
      {
        var r := key[i];
        TakeNext(key, i);
        Walk(model, {}, key[..i], node, contentIdx, r);
        if contentIdx < |node.content| {
          if r == node.content[contentIdx] {
            contentIdx := contentIdx + 1;
          } else {
            Absent(model, key, i + 1);
            return 0, false;
          }
        } else if r in node.children {
          node := node.children[r];
          contentIdx := 1;
        } else {
          Absent(model, key, i + 1);
          return 0, false;
        }
      }
      assert key[..|key|] == key;
      Arrived(model, key, node, contentIdx);
      if node.terminal && contentIdx == |node.content| {
        return node.value, true;
      }
      return 0, false;
    }

    /** Cut `node` after `contentIdx` runes. */
    method Split(node: TrieNode, contentIdx: nat, ghost p: string)
      requires Linked(model.view) && model.Ok({}) == true && model.At(p, node, contentIdx)
      requires contentIdx < |node.content|
      modifies this`model, node
      ensures model.root == old(model.root) && model.contents == old(model.contents)
      ensures Grown(old(model.view), model.view)
      ensures Linked(model.view) && model.Ok({node}) == true && model.At(p, node, |node.content|)
      ensures node.children.Keys == {old(node.content)[contentIdx]}
    {
      ghost var v := model.view[node];
      var other := node.CutAt(contentIdx);
      assert v.Full()[|p|..] == v.content[contentIdx..] && v.Full()[|p|] == v.content[contentIdx];
      assert p[|v.prefix|..] == v.content[..contentIdx];
      SplitStep(model, p, other);
      model := SplitModel(model, p, other);
    }

    /** Hang a fresh one-rune node below `node`. */
    method AddLeaf(node: TrieNode, r: char, ghost p: string, ghost except: set<TrieNode>) returns (leaf: TrieNode)
      requires Linked(model.view) && model.Ok(except) == true && except <= {node} && model.At(p, node, |node.content|)
      requires r !in node.children && (node.terminal || node.children != map[])
      modifies this`model, node`children
      ensures model.root == old(model.root) && model.contents == old(model.contents)
      ensures Grown(old(model.view), model.view)
      ensures Linked(model.view) && model.Ok({leaf}) == true && model.At(p + [r], leaf, 1)
      ensures Growing(leaf, 1)
    {
      leaf := new TrieNode([r], false, 0, map[]);
      assert p == model.view[node].Full();
      Loosen(model, except, {node});
      LeafStep(model, p, r, leaf);
      node.children := node.children[r := leaf];
      model := LeafModel(model, p, r, leaf);
    }

    /** Append a rune to a childless, non-terminal node. */
    method Extend(node: TrieNode, r: char, ghost p: string)
      requires Linked(model.view) && model.Ok({node}) == true && model.At(p, node, |node.content|)
      requires Growing(node, |node.content|)
      modifies this`model, node`content
      ensures model.root == old(model.root) && model.contents == old(model.contents)
      ensures Grown(old(model.view), model.view)
      ensures Linked(model.view) && model.Ok({node}) == true && model.At(p + [r], node, |node.content|)
      ensures |node.content| == |old(node.content)| + 1
    {
      assert p == model.view[node].Full();
      ExtendStep(model, p, r);
      node.content := node.content + [r];
      model := ExtendModel(model, p, r);
    }

    /** Mark the node that spells the whole key. */
    method Mark(node: TrieNode, key: string, value: Lba)
      requires root == model.root && Linked(model.view) && model.Ok({node}) == true
      requires model.At(key, node, |node.content|)
      modifies this`model, node`terminal, node`value
      ensures Valid() && Contents() == old(Contents())[key := value] && Grown(old(model.view), model.view)
    {
      assert key == model.view[node].Full();
      EndStep(model, key, value);
      node.terminal := true;
      node.value := value;
      model := EndModel(model, key, value);
    }

    /** The end of `Put`: split off what the key does not cover, then mark the node. */
    method Finish(node: TrieNode, contentIdx: nat, key: string, value: Lba, ghost growing: bool)
      requires root == model.root && Inserting(key, node, contentIdx, growing) == true
      modifies this`model, node
      ensures Valid() && Contents() == old(Contents())[key := value] && Grown(old(model.view), model.view)
    {
      if contentIdx < |node.content| {
        Split(node, contentIdx, key);
      } else {
        Loosen(model, if growing then {node} else {}, {node});
      }
      Mark(node, key, value);
    }

    /** A node this call has added or grown: not terminal yet, no children, read to its end. */
    ghost predicate Growing(node: TrieNode, contentIdx: int)
      reads node
    {
      !node.terminal && node.children == map[] && contentIdx == |node.content|
    }

    /** In the middle of `Put`, with `p` read and the walk `contentIdx` runes into `node`.
      (Comparing a predicate with `true` makes the verifier carry it whole, not clause by clause.) */
    ghost predicate Inserting(p: string, node: TrieNode, contentIdx: int, growing: bool)
      reads this, node, model.view.Keys
    {
      && Linked(model.view)
      && model.Ok(if growing then {node} else {}) == true
      && model.At(p, node, contentIdx)
      && (growing ==> Growing(node, contentIdx))
    }

    /** One rune of `Put`: match it, descend, split, branch or extend. */
    method Step(node: TrieNode, contentIdx: nat, r: char, ghost p: string, ghost growing: bool)
      returns (node': TrieNode, contentIdx': nat, ghost growing': bool)
      requires Inserting(p, node, contentIdx, growing) == true
      modifies this`model, node
      ensures model.root == old(model.root) && model.contents == old(model.contents)
      ensures Grown(old(model.view), model.view) == true && Inserting(p + [r], node', contentIdx', growing') == true
    {
      Walk(model, if growing then {node} else {}, p, node, contentIdx, r);
      if contentIdx < |node.content| {
        if r == node.content[contentIdx] {
          return node, contentIdx + 1, growing;
        }
        Split(node, contentIdx, p);
        node' := AddLeaf(node, r, p, {node});
        return node', 1, true;
      } else if r in node.children {
        return node.children[r], 1, false;
      } else if node.terminal || |node.children| > 0 {
        node' := AddLeaf(node, r, p, if growing then {node} else {});
        return node', 1, true;
      } else {
        Loosen(model, if growing then {node} else {}, {node});
        Extend(node, r, p);
        return node, contentIdx + 1, true;
      }
    }

    /** The loop of `Put` over the runes of the key. */
    method Descend(key: string) returns (node: TrieNode, contentIdx: nat, ghost growing: bool)
      requires Valid()
      modifies this`model, model.view.Keys
      ensures model.root == old(model.root) && model.contents == old(model.contents)
      ensures Grown(old(model.view), model.view) == true && Inserting(key, node, contentIdx, growing) == true
    {
      node, contentIdx, growing := root, 0, false;
      ghost var p := "";
      AtRoot(model);
      for i := 0 to |key|
        invariant model.root == old(model.root) && model.contents == old(model.contents) && p == key[..i]
        invariant Grown(old(model.view), model.view) == true && Inserting(p, node, contentIdx, growing) == true
      {
        TakeNext(key, i);
        node, contentIdx, growing := Step(node, contentIdx, key[i], p, growing);
        p := p + [key[i]];
      }
      assert key[..|key|] == key;
    }

    method Put(key: string, value: Lba)
      requires Valid()
      modifies this`model, model.view.Keys
      ensures Valid() && Grown(old(model.view), model.view)
      ensures Contents() == old(Contents())[key := value]
    {
      var node, contentIdx, growing := Descend(key);
      Finish(node, contentIdx, key, value, growing);
    }
  }
}
