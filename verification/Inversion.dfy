/** Flattening the trie into parent-pointer nodes (pkg/vdisc/trie.go) and
  spelling a URI back by walking upward (pkg/vdisc/extent.go). */
module Inversion {
  import opened Prelude
  import opened Sectors
  import opened Trie

  datatype InvertedTrieNode = InvertedTrieNode(parent: nat, content: string)

  /** The sentinel is its own parent; every other node's parent comes before it. */
  ghost predicate Rooted(branches: seq<InvertedTrieNode>) {
    && |branches| > 0 && branches[0].parent == 0
    && forall i | 0 < i < |branches| :: branches[i].parent < i
  }

  /** What the branch at index `i` and all its ancestors spell. */
  ghost function Spelled(branches: seq<InvertedTrieNode>, i: nat): string
    requires Rooted(branches) && i < |branches|
  {
    if i == 0 then branches[0].content else Spelled(branches, branches[i].parent) + branches[i].content
  }

  lemma {:induction false} SpelledStable(branches: seq<InvertedTrieNode>, more: seq<InvertedTrieNode>, i: nat)
    requires Rooted(branches) && Rooted(branches + more) && i < |branches|
    ensures Spelled(branches + more, i) == Spelled(branches, i)
  {
    if i != 0 { SpelledStable(branches, more, branches[i].parent); }
  }

  /** The parent walk of `extent.URL`; it ends at the node that is its own parent. */
  method Url(branches: seq<InvertedTrieNode>, prefixIndex: nat, suffix: string) returns (uri: string)
    requires Rooted(branches) && prefixIndex < |branches|
    ensures uri == Spelled(branches, prefixIndex) + suffix
  {
    uri := suffix;
    var parent := prefixIndex;
    while true
      invariant 0 <= parent < |branches|
      invariant Spelled(branches, parent) + uri == Spelled(branches, prefixIndex) + suffix
      decreases parent
    {
      var node := branches[parent];
      assert parent != 0 ==>
        Spelled(branches, parent) + uri == Spelled(branches, node.parent) + (node.content + uri);
      uri := node.content + uri;
      if node.parent == parent {
        break;
      }
      parent := node.parent;
    }
  }

  datatype Traversal = Traversal(prefix: string, parentIndex: nat, node: TrieNode)

  ghost function Nodes(q: seq<Traversal>): set<TrieNode> { set t | t in q :: t.node }

  /** A queued node knows what precedes it and where that is stored. */
  ghost predicate ItemOk(m: Model, branches: seq<InvertedTrieNode>, t: Traversal) {
    && t.node in m.view && Rooted(branches) && t.parentIndex < |branches|
    && t.prefix == m.view[t.node].prefix == Spelled(branches, t.parentIndex)
  }

  ghost predicate QueueOk(m: Model, branches: seq<InvertedTrieNode>, q: seq<Traversal>, done: set<TrieNode>) {
    && Rooted(branches)
    && (forall t | t in q :: ItemOk(m, branches, t) && t.node !in done)
    && (forall i, j | 0 <= i < j < |q| :: q[i].node != q[j].node)
  }

  /** Level order: the root is seen, the children of a finished node are seen, and
    a node is seen only after its parent is finished. */
  ghost predicate Frontier(m: Model, done: set<TrieNode>, pending: set<TrieNode>) {
    && done <= m.view.Keys && pending <= m.view.Keys
    && m.root in done + pending
    && (forall n, r {:trigger m.view[n].children[r]} | n in done && r in m.view[n].children ::
          m.view[n].children[r] in done + pending)
    && (forall n {:trigger ParentDone(m, done, n)} | n in done + pending && n != m.root :: ParentDone(m, done, n))
  }

  ghost predicate ParentDone(m: Model, done: set<TrieNode>, n: TrieNode)
    requires n in m.view
  {
    m.view[n].prefix in m.owner && m.owner[m.view[n].prefix] in done
  }

  /** A finished terminal node is found under its value and its URI is spelled back. */
  ghost predicate LeafOk(m: Model, branches: seq<InvertedTrieNode>, leaves: map<Lba, InvertedTrieNode>, n: TrieNode)
    requires n in m.view && Rooted(branches)
  {
    m.view[n].terminal ==>
      var value := m.view[n].value;
      && value in leaves && leaves[value].parent < |branches|
      && Spelled(branches, leaves[value].parent) + leaves[value].content == m.view[n].Full()
  }

  ghost predicate Source(m: Model, done: set<TrieNode>, v: Lba, n: TrieNode) {
    n in done && n in m.view && m.view[n].terminal && m.view[n].value == v
  }

  ghost predicate LeavesOk(m: Model, branches: seq<InvertedTrieNode>, leaves: map<Lba, InvertedTrieNode>,
      done: set<TrieNode>) {
    && Rooted(branches)
    && (forall n {:trigger LeafOk(m, branches, leaves, n)} | n in done && n in m.view :: LeafOk(m, branches, leaves, n))
    && (forall v | v in leaves :: exists n | n in done :: Source(m, done, v, n))
  }

  /** Once nothing is pending, every node has been visited. */
  lemma {:induction false} AllVisited(m: Model, done: set<TrieNode>, n: TrieNode)
    requires m.Shape() && Frontier(m, done, {}) && n in m.view
    ensures n in done
    decreases |m.view[n].Full()|
  {
    if n != m.root {
      assert m.ParentOk(n);
      var parent := m.owner[m.view[n].prefix];
      AllVisited(m, done, parent);
      assert m.view[parent].children[m.view[n].content[0]] == n;
    }
  }

  ghost predicate Injective(contents: map<string, Lba>) {
    forall k1, k2 {:trigger contents[k1], contents[k2]} | k1 in contents && k2 in contents
      && contents[k1] == contents[k2] :: k1 == k2
  }

  /** Every stored key is spelled back from the leaf filed under its value. */
  ghost predicate RoundTrips(branches: seq<InvertedTrieNode>, leaves: map<Lba, InvertedTrieNode>,
      contents: map<string, Lba>) {
    && Rooted(branches)
    && (forall v | v in leaves :: leaves[v].parent < |branches|)
    && (forall v :: v in leaves <==> v in contents.Values)
    && (forall k | k in contents :: SpelledBack(branches, leaves, contents, k))
  }

  // ----- one turn of the traversal -----

  ghost function Items(prefix: string, idx: nat, kids: seq<TrieNode>): seq<Traversal> {
    seq(|kids|, i requires 0 <= i < |kids| => Traversal(prefix, idx, kids[i]))
  }

  /** `kids` lists the children of `n`, each once. */
  ghost predicate Kids(children: map<char, TrieNode>, kids: seq<TrieNode>) {
    && (forall i, j | 0 <= i < j < |kids| :: kids[i] != kids[j])
    && (forall c | c in kids :: exists r | r in children :: children[r] == c)
    && (forall r | r in children :: children[r] in kids)
  }

  /** A child of an unfinished node has not been seen. */
  lemma ChildUnseen(m: Model, done: set<TrieNode>, pending: set<TrieNode>, n: TrieNode, r: char)
    requires m.Shape() && Frontier(m, done, pending) && n in m.view && n !in done && r in m.view[n].children
    ensures var c := m.view[n].children[r];
      c in m.view && c != n && c != m.root && c !in done + pending && m.view[c].prefix == m.view[n].Full()
      && m.view[c].prefix in m.owner && m.owner[m.view[c].prefix] == n
  {
    assert m.ChildOk(n, r);
    OwnsFull(m, n);
    var c := m.view[n].children[r];
    assert c in done + pending ==> ParentDone(m, done, c);
  }

  lemma FrontierStep(m: Model, done: set<TrieNode>, pending: set<TrieNode>, n: TrieNode, kids: seq<TrieNode>)
    requires m.Shape() && Frontier(m, done, pending) && n in pending && n !in done && Kids(m.view[n].children, kids)
    ensures Frontier(m, done + {n}, pending - {n} + set c | c in kids)
  {
    var done', pending' := done + {n}, pending - {n} + set c | c in kids;
    forall c | c in kids ensures c in m.view && c != m.root && ParentDone(m, done', c) {
      var r :| r in m.view[n].children && m.view[n].children[r] == c;
      ChildUnseen(m, done, pending, n, r);
    }
    forall x {:trigger ParentDone(m, done', x)} | x in done' + pending' && x != m.root ensures ParentDone(m, done', x) {
      if x !in kids { assert ParentDone(m, done, x); }
    }
  }

  lemma ItemStable(m: Model, branches: seq<InvertedTrieNode>, b: InvertedTrieNode, t: Traversal)
    requires ItemOk(m, branches, t) && b.parent < |branches|
    ensures ItemOk(m, branches + [b], t)
  {
    SpelledStable(branches, [b], t.parentIndex);
  }

  lemma QueueStep(m: Model, branches: seq<InvertedTrieNode>, q: seq<Traversal>, done: set<TrieNode>,
      kids: seq<TrieNode>)
    requires m.Shape() && q != [] && QueueOk(m, branches, q, done) && Frontier(m, done, Nodes(q))
    requires Kids(m.view[q[0].node].children, kids)
    ensures var v := m.view[q[0].node];
      QueueOk(m, branches + [InvertedTrieNode(q[0].parentIndex, v.content)],
              q[1..] + Items(v.Full(), |branches|, kids), done + {q[0].node})
  {
    var n := q[0].node;
    assert q[0] in q;
    var b := InvertedTrieNode(q[0].parentIndex, m.view[n].content);
    var branches' := branches + [b];
    var items := Items(m.view[n].Full(), |branches|, kids);
    SpelledStable(branches, [b], b.parent);
    forall t | t in q[1..] ensures t in q && ItemOk(m, branches', t) && t.node !in done + {n} && t.node in Nodes(q) {
      ItemStable(m, branches, b, t);
    }
    forall i | 0 <= i < |kids|
      ensures ItemOk(m, branches', items[i]) && items[i].node !in done + {n} && items[i].node !in Nodes(q)
    {
      assert kids[i] in kids;
      var r :| r in m.view[n].children && m.view[n].children[r] == kids[i];
      ChildUnseen(m, done, Nodes(q), n, r);
    }
  }

  /** A node without children adds no branch. */
  lemma QueueSkip(m: Model, branches: seq<InvertedTrieNode>, q: seq<Traversal>, done: set<TrieNode>)
    requires q != [] && QueueOk(m, branches, q, done)
    ensures QueueOk(m, branches, q[1..], done + {q[0].node})
  {
    forall t | t in q[1..] ensures t in q && t.node != q[0].node {}
  }

  lemma LeavesGrow(m: Model, branches: seq<InvertedTrieNode>, leaves: map<Lba, InvertedTrieNode>, done: set<TrieNode>,
                   b: InvertedTrieNode)
    requires LeavesOk(m, branches, leaves, done) && b.parent < |branches|
    ensures LeavesOk(m, branches + [b], leaves, done)
  {
    forall n {:trigger LeafOk(m, branches + [b], leaves, n)} | n in done && n in m.view
      ensures LeafOk(m, branches + [b], leaves, n)
    {
      assert LeafOk(m, branches, leaves, n);
      if m.view[n].terminal { SpelledStable(branches, [b], leaves[m.view[n].value].parent); }
    }
  }

  ghost function Filed(leaves: map<Lba, InvertedTrieNode>, v: NodeView, parentIndex: nat): map<Lba, InvertedTrieNode> {
    if v.terminal then leaves[v.value := InvertedTrieNode(parentIndex, v.content)] else leaves
  }

  lemma LeavesStep(m: Model, branches: seq<InvertedTrieNode>, leaves: map<Lba, InvertedTrieNode>, done: set<TrieNode>,
      t: Traversal)
    requires LeavesOk(m, branches, leaves, done) && ItemOk(m, branches, t)
    requires m.view[t.node].terminal ==> m.view[t.node].value !in leaves
    ensures LeavesOk(m, branches, Filed(leaves, m.view[t.node], t.parentIndex), done + {t.node})
  {
    var leaves', done' := Filed(leaves, m.view[t.node], t.parentIndex), done + {t.node};
    forall n {:trigger LeafOk(m, branches, leaves', n)} | n in done'
      && n in m.view ensures LeafOk(m, branches, leaves', n) {
      if n != t.node { assert LeafOk(m, branches, leaves, n); }
    }
    forall v | v in leaves' ensures exists n | n in done' :: Source(m, done', v, n) {
      if v in leaves {
        var n :| n in done && Source(m, done, v, n);
        assert Source(m, done', v, n);
      } else {
        assert Source(m, done', v, t.node);
      }
    }
  }

  /** Meeting a value twice means two different keys hold it. */
  lemma Clash(m: Model, branches: seq<InvertedTrieNode>, leaves: map<Lba, InvertedTrieNode>, done: set<TrieNode>,
      n: TrieNode)
    requires m.Ok({}) && LeavesOk(m, branches, leaves, done)
    requires n in m.view && n !in done && m.view[n].terminal && m.view[n].value in leaves
    ensures !Injective(m.contents)
  {
    assert Unfold(true);
    var o :| o in done && Source(m, done, m.view[n].value, o);
    assert m.EndOk(n) && m.EndOk(o);
    OwnsFull(m, n);
    OwnsFull(m, o);
    assert m.contents[m.view[n].Full()] == m.contents[m.view[o].Full()];
  }

  lemma Finished(m: Model, branches: seq<InvertedTrieNode>, leaves: map<Lba, InvertedTrieNode>, done: set<TrieNode>)
    requires m.Ok({}) && LeavesOk(m, branches, leaves, done) && Frontier(m, done, {})
    ensures RoundTrips(branches, leaves, m.contents) && Injective(m.contents)
  {
    assert Unfold(true);
    forall k | k in m.contents
      ensures SpelledBack(branches, leaves, m.contents, k)
    {
      assert m.KeyOk(k);
      AllVisited(m, done, m.owner[k]);
      assert LeafOk(m, branches, leaves, m.owner[k]) && m.EndOk(m.owner[k]);
    }
    forall v | v in leaves ensures v in m.contents.Values && leaves[v].parent < |branches| {
      var n :| n in done && Source(m, done, v, n);
      assert m.EndOk(n) && LeafOk(m, branches, leaves, n);
      assert m.contents[m.view[n].Full()] == v;
    }
  }

  ghost predicate SpelledBack(branches: seq<InvertedTrieNode>, leaves: map<Lba, InvertedTrieNode>,
      contents: map<string, Lba>, k: string)
    requires Rooted(branches) && k in contents
  {
    contents[k] in leaves && leaves[contents[k]].parent < |branches|
    && Spelled(branches, leaves[contents[k]].parent) + leaves[contents[k]].content == k
  }

  lemma AppendDistinct(kids: seq<TrieNode>, c: TrieNode)
    requires c !in kids && forall i, j | 0 <= i < j < |kids| :: kids[i] != kids[j]
    ensures forall i, j | 0 <= i < j < |kids + [c]| :: (kids + [c])[i] != (kids + [c])[j]
  {
    forall i, j | 0 <= i < j < |kids + [c]| ensures (kids + [c])[i] != (kids + [c])[j] {
      assert (kids + [c])[i] == kids[i] && kids[i] in kids;
    }
  }

  /** Go's iteration over a map: every child once, in no particular order. */
  method ListChildren(children: map<char, TrieNode>) returns (kids: seq<TrieNode>)
    requires forall r1, r2 | r1 in children && r2 in children && children[r1] == children[r2] :: r1 == r2
    ensures Kids(children, kids)
  {
    kids := [];
    var left := children.Keys;
    while left != {}
      invariant left <= children.Keys
      invariant forall i, j | 0 <= i < j < |kids| :: kids[i] != kids[j]
      invariant forall c | c in kids :: exists r | r in children :: r !in left && children[r] == c
      invariant forall r | r in children :: r in left || children[r] in kids
    {
      var r :| r in left;
      forall c | c in kids ensures c != children[r] {
        var r' :| r' in children && r' !in left && children[r'] == c;
      }
      AppendDistinct(kids, children[r]);
      kids := kids + [children[r]];
      left := left - {r};
    }
  }

  ghost predicate Searching(m: Model, branches: seq<InvertedTrieNode>, leaves: map<Lba, InvertedTrieNode>,
                            q: seq<Traversal>, done: set<TrieNode>) {
    QueueOk(m, branches, q, done) && Frontier(m, done, Nodes(q)) && LeavesOk(m, branches, leaves, done)
  }

  lemma SearchStart(m: Model)
    requires m.Ok({})
    ensures Searching(m, [InvertedTrieNode(0, "")], map[], [Traversal("", 0, m.root)], {})
  {
    assert Unfold(true);
    assert Nodes([Traversal("", 0, m.root)]) == {m.root};
  }

  /** The node at the head of the queue, and that its children have distinct first runes. */
  lemma Head(m: Model, branches: seq<InvertedTrieNode>, leaves: map<Lba, InvertedTrieNode>, q: seq<Traversal>,
      done: set<TrieNode>)
    requires m.Ok({}) && Searching(m, branches, leaves, q, done) && q != []
    ensures q[0].node in m.view && q[0].node !in done && q[0].prefix == m.view[q[0].node].prefix
    ensures var children := m.view[q[0].node].children;
      forall r1, r2 | r1 in children && r2 in children && children[r1] == children[r2] :: r1 == r2
  {
    assert Unfold(true);
    var n := q[0].node;
    assert q[0] in q;
    var children := m.view[n].children;
    forall r1, r2 | r1 in children && r2 in children && children[r1] == children[r2] ensures r1 == r2 {
      assert m.ChildOk(n, r1) && m.ChildOk(n, r2);
    }
  }

  /** One turn of the loop, as a step on its variables. */
  lemma Turn(m: Model, branches: seq<InvertedTrieNode>, leaves: map<Lba, InvertedTrieNode>, q: seq<Traversal>,
             done: set<TrieNode>, kids: seq<TrieNode>)
    requires m.Ok({}) && Searching(m, branches, leaves, q, done) && q != []
    requires q[0].node in m.view && Kids(m.view[q[0].node].children, kids)
    requires m.view[q[0].node].terminal ==> m.view[q[0].node].value !in leaves
    ensures var t, v := q[0], m.view[q[0].node];
      if v.children != map[] then
        Searching(m, branches + [InvertedTrieNode(t.parentIndex, v.content)], Filed(leaves, v, t.parentIndex),
                  q[1..] + Items(t.prefix + v.content, |branches|, kids), done + {t.node})
      else
        Searching(m, branches, Filed(leaves, v, t.parentIndex), q[1..], done + {t.node})
  {
    assert Unfold(true);
    var t := q[0];
    assert t in q;
    var v := m.view[t.node];
    var items := Items(v.Full(), |branches|, kids);
    LeavesStep(m, branches, leaves, done, t);
    FrontierStep(m, done, Nodes(q), t.node, kids);
    HeadNodes(q, items);
    assert Nodes(items) == set c | c in kids by { ItemNodes(v.Full(), |branches|, kids); }
    if v.children != map[] {
      QueueStep(m, branches, q, done, kids);
      LeavesGrow(m, branches, Filed(leaves, v, t.parentIndex), done + {t.node},
        InvertedTrieNode(t.parentIndex, v.content));
    } else {
      QueueSkip(m, branches, q, done);
      assert Nodes(q[1..] + items) == Nodes(q[1..]);
    }
  }

  lemma ItemNodes(prefix: string, idx: nat, kids: seq<TrieNode>)
    ensures Nodes(Items(prefix, idx, kids)) == set c | c in kids
  {
    var items := Items(prefix, idx, kids);
    forall c | c in kids ensures c in Nodes(items) {
      var i :| 0 <= i < |kids| && kids[i] == c;
      assert items[i] in items;
    }
  }

  lemma HeadNodes(q: seq<Traversal>, items: seq<Traversal>)
    requires q != [] && forall i, j | 0 <= i < j < |q| :: q[i].node != q[j].node
    ensures Nodes(q[1..] + items) == Nodes(q) - {q[0].node} + Nodes(items)
  {
    assert q == [q[0]] + q[1..];
    forall t | t in q[1..] ensures t.node != q[0].node {}
    forall t ensures t in q[1..] + items <==> t in q[1..] || t in items {}
    forall n | n in Nodes(q) - {q[0].node} + Nodes(items) ensures n in Nodes(q[1..] + items) {
      if n in Nodes(items) {
        var t :| t in items && t.node == n;
        assert t in q[1..] + items;
      } else {
        var t :| t in q && t.node == n;
        assert t in q[1..] + items;
      }
    }
  }

  /** `Invert`; `ok` is false where the source panics on a repeated value. */
  method Invert(trie: TrieMap) returns (ok: bool, branches: seq<InvertedTrieNode>, leaves: map<Lba, InvertedTrieNode>)
    requires trie.Valid()
    ensures ok <==> Injective(trie.Contents())
    ensures ok ==> RoundTrips(branches, leaves, trie.Contents())
    ensures branches != [] && branches[0].content == ""
  {
    ghost var m := trie.model;
    branches := [InvertedTrieNode(0, "")];
    leaves := map[];
    var q := [Traversal("", 0, trie.root)];
    SearchStart(m);
    ghost var done: set<TrieNode> := {};
    while q != []
      invariant Searching(m, branches, leaves, q, done) == true
      invariant branches != [] && branches[0].content == ""
      decreases m.view.Keys - done
    {
      Head(m, branches, leaves, q, done);
      var t := q[0];
      var node := t.node;
      var content := node.content;
      var kids := ListChildren(node.children);
      if node.terminal && node.value in leaves {
        Clash(m, branches, leaves, done, node);
        return false, branches, leaves;
      }
      Turn(m, branches, leaves, q, done, kids);
      if node.terminal {
        leaves := leaves[node.value := InvertedTrieNode(t.parentIndex, content)];
      }
      if |node.children| > 0 {
        var idx := |branches|;
        branches := branches + [InvertedTrieNode(t.parentIndex, content)];
        var items := seq(|kids|, i requires 0 <= i < |kids| => Traversal(t.prefix + content, idx, kids[i]));
        assert items == Items(t.prefix + content, idx, kids);
        q := q[1..] + items;
      } else {
        q := q[1..];
      }
      done := done + {node};
    }
    Finished(m, branches, leaves, done);
    ok := true;
  }
}
