/** Several parts share one list of entries (pkg/iso9660/directoryinode.go): exactly when the first
  record, the one that is read back, still leads to the inode's entries. */
module Aliasing {
  import opened Prelude
  import opened Sectors
  import opened Susp
  import opened Continuation
  import opened Expansion
  import opened Packing
  import opened Directory
  import opened ToDirectory

  // ----- which entries an expansion yields -----

  type Bag = multiset<Entry>

  /** The entries that a list comes to, in any order, following CEs at most `depth` deep. */
  ghost function BagOf(read: Reader, todo: seq<Entry>, depth: nat): Option<Bag>
    decreases depth, |todo|
  {
    if todo == [] then Some(multiset{})
    else
      var rest := BagOf(read, todo[1..], depth);
      var one := if !todo[0].CE? then Some(multiset{todo[0]})
        else if depth == 0 then None
        else
          var more := read(todo[0]);
          if more.Err? then None else BagOf(read, more.value, depth - 1);
      if one.Some? && rest.Some? then Some(one.value + rest.value) else None
  }

  /** The number of turns that expanding the list takes. */
  ghost function Turns(read: Reader, todo: seq<Entry>, depth: nat): nat
    requires BagOf(read, todo, depth).Some?
    decreases depth, |todo|
  {
    if todo == [] then 0
    else 1 + Turns(read, todo[1..], depth) + if todo[0].CE? then Turns(read, read(todo[0]).value, depth - 1) else 0
  }

  ghost predicate Counted(read: Reader, todo: seq<Entry>, depth: nat, n: Bag, turns: nat) {
    BagOf(read, todo, depth) == Some(n) && Turns(read, todo, depth) == turns
  }

  lemma {:induction false} Deeper(read: Reader, todo: seq<Entry>, depth: nat, n: Bag, turns: nat)
    requires Counted(read, todo, depth, n, turns)
    ensures Counted(read, todo, depth + 1, n, turns)
    decreases depth, |todo|
  {
    if todo != [] {
      Deeper(read, todo[1..], depth, BagOf(read, todo[1..], depth).value, Turns(read, todo[1..], depth));
      if todo[0].CE? {
        var more := read(todo[0]).value;
        Deeper(read, more, depth - 1, BagOf(read, more, depth - 1).value, Turns(read, more, depth - 1));
      }
    }
  }

  lemma {:induction false} BagJoin(read: Reader, a: seq<Entry>, b: seq<Entry>, depth: nat, m: Bag, s: nat, n: Bag,
      t: nat)
    requires Counted(read, a, depth, m, s) && Counted(read, b, depth, n, t)
    ensures Counted(read, a + b, depth, m + n, s + t)
    decreases |a|
  {
    if a == [] {
      assert a + b == b && multiset{} + n == n;
    } else {
      assert (a + b)[1..] == a[1..] + b;
      var m' := BagOf(read, a[1..], depth).value;
      BagJoin(read, a[1..], b, depth, m', Turns(read, a[1..], depth), n, t);
      var one := if a[0].CE? then BagOf(read, read(a[0]).value, depth - 1).value else multiset{a[0]};
      assert one + (m' + n) == one + m' + n;
    }
  }

  /** The expansion ends, with exactly these entries, each as often. */
  ghost predicate Yields(read: Reader, todo: seq<Entry>, fuel: nat, n: Bag) {
    Ends(read, todo, fuel) && var es := Expand(read, todo, fuel); es.Ok? && multiset(es.value) == n
  }

  lemma YieldsPlain(read: Reader, todo: seq<Entry>, fuel: nat, n: Bag)
    requires todo != [] && !todo[0].CE? && Yields(read, todo[1..], fuel, n)
    ensures Yields(read, todo, fuel + 1, multiset{todo[0]} + n) == true
  {
    var es := Expand(read, todo[1..], fuel).value;
    assert Expand(read, todo, fuel + 1) == Ok([todo[0]] + es);
  }

  lemma YieldsMore(read: Reader, todo: seq<Entry>, more: seq<Entry>, fuel: nat, n: Bag)
    requires todo != [] && todo[0].CE? && read(todo[0]) == Ok(more) && Yields(read, todo[1..] + more, fuel, n)
    ensures Yields(read, todo, fuel + 1, n) == true
  {
  }

  lemma {:induction false} BagIsExpansion(read: Reader, todo: seq<Entry>, depth: nat, n: Bag, turns: nat)
    requires Counted(read, todo, depth, n, turns)
    ensures Yields(read, todo, turns, n) == true
    decreases turns
  {
    if todo != [] {
      var rest := todo[1..];
      var m, s := BagOf(read, rest, depth).value, Turns(read, rest, depth);
      if todo[0].CE? {
        var more := read(todo[0]).value;
        var k, t := BagOf(read, more, depth - 1).value, Turns(read, more, depth - 1);
        Deeper(read, more, depth - 1, k, t);
        BagJoin(read, rest, more, depth, m, s, k, t);
        BagIsExpansion(read, rest + more, depth, m + k, s + t);
        YieldsMore(read, todo, more, s + t, m + k);
        assert k + m == m + k;
      } else {
        BagIsExpansion(read, rest, depth, m, s);
        YieldsPlain(read, todo, s, m);
      }
    }
  }

  /** A list with one bag does not expand to a list with another. */
  lemma NotExpanded(read: Reader, todo: seq<Entry>, got: seq<Entry>, es: seq<Entry>)
    requires ExpandsBy(read, todo, got) && |got| != |es|
    ensures !ExpandsBy(read, todo, es)
  {
    var f: nat :| Ends(read, todo, f) && Expand(read, todo, f) == Ok(got);
    if ExpandsBy(read, todo, es) {
      var g: nat :| Ends(read, todo, g) && Expand(read, todo, g) == Ok(es);
      FuelIrrelevant(read, todo, f, g);
    }
  }

  /** Entries that are no CEs come first. */
  lemma {:induction false} PlainFront(read: Reader, front: seq<Entry>, todo: seq<Entry>, es: seq<Entry>)
    requires Plain(front) && ExpandsBy(read, todo, es)
    ensures ExpandsBy(read, front + todo, front + es)
    decreases |front|
  {
    if front == [] {
      assert front + todo == todo && front + es == es;
    } else {
      assert front[0] in front;
      PlainFront(read, front[1..], todo, es);
      var f: nat :| Ends(read, front[1..] + todo, f) && Expand(read, front[1..] + todo, f) == Ok(front[1..] + es);
      assert (front + todo)[1..] == front[1..] + todo;
      assert Ends(read, front + todo, f + 1);
      assert [front[0]] + (front[1..] + es) == front + es;
    }
  }

  // ----- counting through a chain -----

  lemma {:induction false} PlainBag(read: Reader, es: seq<Entry>, depth: nat)
    requires Plain(es)
    ensures Counted(read, es, depth, multiset(es), |es|)
    decreases |es|
  {
    if es != [] {
      assert es[0] in es;
      PlainBag(read, es[1..], depth);
      assert es == [es[0]] + es[1..];
    }
  }

  ghost predicate UnfoldBag(u: bool) { true }

  /** A list with a known bag, for some depth and number of turns. (Only unfolded where `UnfoldBag(true)` is
    asserted.) */
  ghost predicate Comes(read: Reader, todo: seq<Entry>, n: Bag) {
    forall u {:trigger UnfoldBag(u)} :: UnfoldBag(u) ==>
      exists depth: nat, turns: nat :: Counted(read, todo, depth, n, turns)
  }

  lemma PlainComes(read: Reader, es: seq<Entry>)
    requires Plain(es)
    ensures Comes(read, es, multiset(es)) == true
  {
    PlainBag(read, es, 0);
  }

  lemma {:induction false} DeeperTo(read: Reader, todo: seq<Entry>, depth: nat, n: Bag, turns: nat, d: nat)
    requires Counted(read, todo, depth, n, turns) && d >= depth
    ensures Counted(read, todo, d, n, turns)
    decreases d
  {
    if d > depth {
      DeeperTo(read, todo, depth, n, turns, d - 1);
      Deeper(read, todo, d - 1, n, turns);
    }
  }

  lemma ComesJoin(read: Reader, a: seq<Entry>, b: seq<Entry>, m: Bag, n: Bag)
    requires Comes(read, a, m) == true && Comes(read, b, n) == true
    ensures Comes(read, a + b, m + n) == true
  {
    assert UnfoldBag(true);
    var d: nat, s: nat :| Counted(read, a, d, m, s);
    var e: nat, t: nat :| Counted(read, b, e, n, t);
    var top := if d > e then d else e;
    DeeperTo(read, a, d, m, s, top);
    DeeperTo(read, b, e, n, t, top);
    BagJoin(read, a, b, top, m, s, n, t);
  }

  /** The count of a joined list splits. */
  lemma {:induction false} BagSplit(read: Reader, a: seq<Entry>, b: seq<Entry>, depth: nat)
    requires BagOf(read, a + b, depth).Some?
    ensures BagOf(read, a, depth).Some? && BagOf(read, b, depth).Some?
    decreases |a|
  {
    if a == [] {
      assert a + b == b;
    } else {
      assert (a + b)[1..] == a[1..] + b;
      BagSplit(read, a[1..], b, depth);
    }
  }

  lemma ComesBy(read: Reader, ce: Entry, run: seq<Entry>, n: Bag)
    requires ce.CE? && read(ce) == Ok(run) && Comes(read, run, n) == true
    ensures Comes(read, [ce], n) == true
  {
    assert UnfoldBag(true);
    var d: nat, t: nat :| Counted(read, run, d, n, t);
    assert [ce][1..] == [];
    assert BagOf(read, [], d + 1) == Some(multiset{}) && Turns(read, [], d + 1) == 0;
    assert n + multiset{} == n;
    assert BagOf(read, [ce], d + 1) == Some(n);
    assert Counted(read, [ce], d + 1, n, t + 1);
  }

  /** A CE comes to as many entries as the list it leads to. */
  lemma {:induction false} ChainComes(read: Reader, start: Lba, sectors: seq<Sector>, ce: Entry, trail: Trail,
      es: seq<Entry>, n: Bag)
    requires Readable(read, start, sectors) == true
    requires Chain(start, sectors, ce, trail, es) == true && Comes(read, es, n) == true
    ensures Comes(read, [ce], n) == true
    decreases trail
  {
    var run := ChainLink(start, sectors, ce, trail, es);
    if trail.On? {
      var k := |run| - 1;
      var m, l := ComesSplit(read, es, k, n);
      ChainComes(read, start, sectors, run[k], trail.rest, es[k..], l);
      ComesJoin(read, es[..k], [run[k]], m, l);
      assert run == es[..k] + [run[k]];
    }
    ComesBy(read, ce, run, n);
  }

  lemma ComesSplit(read: Reader, es: seq<Entry>, k: nat, n: Bag) returns (m: Bag, l: Bag)
    requires k <= |es| && Comes(read, es, n) == true
    ensures n == m + l && Comes(read, es[..k], m) == true && Comes(read, es[k..], l) == true
  {
    assert UnfoldBag(true);
    var d: nat, t: nat :| Counted(read, es, d, n, t);
    Two(es, k);
    BagSplit(read, es[..k], es[k..], d);
    m, l := BagOf(read, es[..k], d).value, BagOf(read, es[k..], d).value;
    var s, u := Turns(read, es[..k], d), Turns(read, es[k..], d);
    BagJoin(read, es[..k], es[k..], d, m, s, l, u);
    assert Counted(read, es[..k], d, m, s) && Counted(read, es[k..], d, l, u);
  }

  // ----- when the first record is spoilt -----

  const MARK := CE(0, 0, 0)

  /** The second part overflows at the same entry as the first, so that its CE takes the place of the first one's.
    Only the lengths of the entries matter. */
  predicate Clobbered(room: nat, es: seq<Entry>, n: nat) {
    var k := Kept(room, es);
    n >= 2 && k < |es| && Kept(room, es[k := MARK]) == k
  }

  /** What the first record shows of the shared list in the end. */
  function FirstShown(cont: Lba, sectors: seq<Sector>, es: seq<Entry>, room: nat, n: nat): seq<Entry>
    requires AllValid(es) && n > 0
  {
    var r := Split(cont, sectors, es, room, n);
    r.1[..r.2[0]]
  }

  lemma {:induction false} SplitPrefix(cont: Lba, sectors: seq<Sector>, shared: seq<Entry>, room: nat, n: nat, p: nat)
    requires AllValid(shared) && p <= |shared| && Total(shared[..p]) + CE_LENGTH <= room
    ensures Split(cont, sectors, shared, room, n).1[..p] == shared[..p]
    decreases n
  {
    var k := Kept(room, shared);
    assert shared[..|shared|] == shared;
    if k == |shared| {
      SplitFitting(cont, sectors, shared, room, n);
    } else if n > 0 {
      KeptAtLeast(room, shared, |shared| - 1, p);
      var a := Appended(cont, sectors, shared[k..]);
      var changed := shared[k := a.1];
      assert changed[..p] == shared[..p];
      SplitPrefix(cont, a.0, changed, room, n - 1, p);
    }
  }

  lemma ReplacedSame(es: seq<Entry>, k: nat, ce: Entry)
    requires k < |es| && ce.CE?
    ensures SameLens(es[k := ce], es[k := MARK]) == true
  {
  }

  lemma KeptFits(room: nat, es: seq<Entry>)
    requires room >= CE_LENGTH && Kept(room, es) < |es|
    ensures Total(es[..Kept(room, es)]) + CE_LENGTH <= room
  {
    if Kept(room, es) == 0 { assert Continuation.Sum(es[..0], 0) == 0; }
  }

  /** Unless it is clobbered, the first record keeps its own CE. */
  lemma FirstKept(cont: Lba, sectors: seq<Sector>, es: seq<Entry>, room: nat, n: nat)
    requires AllValid(es) && room >= CE_LENGTH && n > 0 && Kept(room, es) < |es| && !Clobbered(room, es, n)
    ensures var k := Kept(room, es);
      FirstShown(cont, sectors, es, room, n) == es[..k] + [Appended(cont, sectors, es[k..]).1]
  {
    var k := Kept(room, es);
    var a := Appended(cont, sectors, es[k..]);
    var shared := es[k := a.1];
    ReplacedValid(es, k, a.1);
    assert shared[..k + 1] == es[..k] + [a.1];
    var r := Split(cont, a.0, shared, room, n - 1);
    if n > 1 {
      ReplacedSame(es, k, a.1);
      KeptSame(room, shared, es[k := MARK]);
      SecondKeeps(cont, a.0, shared, room, n - 1, k, es);
    }
    assert r.1[..k + 1] == shared[..k + 1];
  }

  lemma SecondKeeps(cont: Lba, sectors: seq<Sector>, shared: seq<Entry>, room: nat, n: nat, k: nat, es: seq<Entry>)
    requires AllValid(shared) && room >= CE_LENGTH && k < |shared| == |es| && shared[..k] == es[..k]
    requires Kept(room, es) == k != Kept(room, shared)
    ensures Split(cont, sectors, shared, room, n).1[..k + 1] == shared[..k + 1]
  {
    var next := Kept(room, shared);
    if next == |shared| {
      SplitFitting(cont, sectors, shared, room, n);
    } else {
      KeptFits(room, es);
      KeptAtLeast(room, shared, |shared| - 1, k);
      Monotone(shared, k + 1, next);
      SplitPrefix(cont, sectors, shared, room, n, k + 1);
    }
  }

  /** The entries go into the area for the first part, and lead back to themselves whatever is added later. */
  lemma FirstChain(cont: Lba, sectors: seq<Sector>, es: seq<Entry>, room: nat, n: nat, later: seq<Sector>)
    returns (trail: Trail)
    requires AllValid(es) && n > 0 && Kept(room, es) < |es| && AreaOk(sectors)
    requires Extends(Split(cont, sectors, es, room, n).0, later)
    ensures var k := Kept(room, es);
      var a := Appended(cont, sectors, es[k..]);
      AreaOk(a.0) == true && Chain(cont, later, a.1, trail, es[k..]) == true
  {
    var k := Kept(room, es);
    trail := AppendKeeps(cont, sectors, es[k..]);
    var a := Appended(cont, sectors, es[k..]);
    ReplacedValid(es, k, a.1);
    SplitKeeps(cont, a.0, es[k := a.1], room, n - 1);
    ExtendsTrans(a.0, Split(cont, sectors, es, room, n).0, later);
    ChainKept(cont, a.0, later, a.1, trail, es[k..]);
  }

  lemma UnclobberedReadsBack(read: Reader, cont: Lba, sectors: seq<Sector>, es: seq<Entry>, room: nat, n: nat,
      later: seq<Sector>)
    requires AllValid(es) && Plain(es) && room >= CE_LENGTH && n > 0 && AreaOk(sectors) && !Clobbered(room, es, n)
    requires Extends(Split(cont, sectors, es, room, n).0, later) && Readable(read, cont, later) == true
    ensures ExpandsBy(read, FirstShown(cont, sectors, es, room, n), es) == true
  {
    var k := Kept(room, es);
    if k == |es| {
      SplitFitting(cont, sectors, es, room, n);
      assert es[..k] == es;
      PlainExpands(read, es);
    } else {
      FirstKept(cont, sectors, es, room, n);
      var trail := FirstChain(cont, sectors, es, room, n, later);
      ChainExpands(read, cont, later, es[..k], Appended(cont, sectors, es[k..]).1, trail, es[k..]);
      Two(es, k);
    }
  }

  /** The shared list after some parts that all overflow at entry `k`: only that entry has changed. */
  ghost predicate Marked(room: nat, es: seq<Entry>, k: nat, shared: seq<Entry>) {
    AllValid(shared) && |shared| == |es| && k < |es| && shared[k].CE? && Kept(room, shared) == k
    && forall u {:trigger Unfold(u)} :: Unfold(u) ==> shared[..k] == es[..k] && shared[k + 1..] == es[k + 1..]
  }

  lemma MarkedNext(room: nat, es: seq<Entry>, k: nat, shared: seq<Entry>, ce: Entry)
    requires Marked(room, es, k, shared) && ce.CE?
    ensures Marked(room, es, k, shared[k := ce]) == true
  {
    assert Unfold(true);
    ReplacedValid(shared, k, ce);
    ReplacedSame(shared, k, ce);
    ReplacedSame(shared, k, shared[k]);
    assert shared[k := shared[k]] == shared;
    KeptSame(room, shared[k := ce], shared[k := MARK]);
    KeptSame(room, shared, shared[k := MARK]);
    assert shared[k := ce][..k] == shared[..k] && shared[k := ce][k + 1..] == shared[k + 1..];
  }

  /** What a marked list spills comes to the entries behind the CE once more. */
  lemma SpilledComes(read: Reader, room: nat, es: seq<Entry>, k: nat, shared: seq<Entry>, c: Bag)
    requires Marked(room, es, k, shared) && Plain(es) && Comes(read, [shared[k]], c) == true
    ensures Comes(read, shared[k..], c + multiset(es[k + 1..])) == true
  {
    assert Unfold(true);
    var tail := es[k + 1..];
    PlainComes(read, tail);
    ComesJoin(read, [shared[k]], tail, c, multiset(tail));
    assert shared[k..] == [shared[k]] + tail;
  }

  /** A marked list whose CE comes to the entries of `c`. */
  ghost predicate MarkedWith(read: Reader, room: nat, es: seq<Entry>, k: nat, shared: seq<Entry>, c: Bag) {
    Marked(room, es, k, shared) == true && Comes(read, [shared[k]], c) == true
  }

  /** Splitting ends with this area and this list. (Only unfolded where `Unfold(true)` is asserted.) */
  ghost predicate SplitsTo(cont: Lba, sectors: seq<Sector>, shared: seq<Entry>, room: nat, n: nat, area: seq<Sector>,
      list: seq<Entry>) {
    forall u {:trigger Unfold(u)} :: Unfold(u) ==>
      AllValid(shared) && var r := Split(cont, sectors, shared, room, n); r.0 == area && r.1 == list
  }

  lemma SplitStep(cont: Lba, sectors: seq<Sector>, shared: seq<Entry>, room: nat, n: nat, area: seq<Sector>,
      list: seq<Entry>)
    requires AllValid(shared) && SplitsTo(cont, sectors, shared, room, n, area, list) == true
    requires (n > 0 ==> Kept(room, shared) < |shared|)
    ensures n == 0 ==> area == sectors && list == shared
    ensures n > 0 ==> var k := Kept(room, shared);
      var a := Appended(cont, sectors, shared[k..]);
      SplitsTo(cont, a.0, shared[k := a.1], room, n - 1, area, list) == true
  {
    assert Unfold(true);
    if n > 0 {
      var k := Kept(room, shared);
      ReplacedValid(shared, k, Appended(cont, sectors, shared[k..]).1);
    }
  }

  ghost function Copies(n: nat, b: Bag): Bag { if n == 0 then multiset{} else b + Copies(n - 1, b) }

  /** Each further part makes the CE in the shared list come to the entries behind it once more. */
  lemma {:induction false} ClobberGrows(read: Reader, cont: Lba, later: seq<Sector>, sectors: seq<Sector>,
      shared: seq<Entry>, es: seq<Entry>, room: nat, k: nat, n: nat, c: Bag, area: seq<Sector>, list: seq<Entry>)
    requires MarkedWith(read, room, es, k, shared, c) == true && Plain(es) && |es| - k >= 2 && AreaOk(sectors) == true
    requires SplitsTo(cont, sectors, shared, room, n, area, list) == true && Extends(area, later) == true
    requires Readable(read, cont, later) == true
    ensures MarkedWith(read, room, es, k, list, c + Copies(n, multiset(es[k + 1..]))) == true
    decreases n
  {
    var tail := multiset(es[k + 1..]);
    if n == 0 {
      SplitStep(cont, sectors, shared, room, n, area, list);
      assert c + Copies(0, tail) == c;
    } else {
      var next, changed := ClobberStep(read, cont, later, sectors, shared, es, room, k, n, c, area, list);
      ClobberGrows(read, cont, later, next, changed, es, room, k, n - 1, c + tail, area, list);
      assert c + tail + Copies(n - 1, tail) == c + Copies(n, tail);
    }
  }

  lemma ClobberStep(read: Reader, cont: Lba, later: seq<Sector>, sectors: seq<Sector>, shared: seq<Entry>,
      es: seq<Entry>, room: nat, k: nat, n: nat, c: Bag, area: seq<Sector>, list: seq<Entry>)
    returns (next: seq<Sector>, changed: seq<Entry>)
    requires MarkedWith(read, room, es, k, shared, c) == true && Plain(es) && AreaOk(sectors) == true && n > 0
    requires SplitsTo(cont, sectors, shared, room, n, area, list) == true && Extends(area, later) == true
    requires Readable(read, cont, later) == true
    ensures AreaOk(next) == true && MarkedWith(read, room, es, k, changed, c + multiset(es[k + 1..])) == true
    ensures SplitsTo(cont, next, changed, room, n - 1, area, list) == true
  {
    var ce, trail;
    next, ce, trail := LaterChain(cont, sectors, shared, room, k, n, area, list, later);
    changed := shared[k := ce];
    SpilledChain(read, cont, later, ce, trail, shared, es, room, k, c);
  }

  lemma SpilledChain(read: Reader, cont: Lba, later: seq<Sector>, ce: Entry, trail: Trail, shared: seq<Entry>,
      es: seq<Entry>, room: nat, k: nat, c: Bag)
    requires MarkedWith(read, room, es, k, shared, c) == true && Plain(es) && Readable(read, cont, later) == true
    requires ce.CE? && Chain(cont, later, ce, trail, shared[k..]) == true
    ensures MarkedWith(read, room, es, k, shared[k := ce], c + multiset(es[k + 1..])) == true
  {
    SpilledComes(read, room, es, k, shared, c);
    ChainComes(read, cont, later, ce, trail, shared[k..], c + multiset(es[k + 1..]));
    MarkedNext(room, es, k, shared, ce);
    assert shared[k := ce][k] == ce;
  }

  /** One part of the split: its CE leads to what it spilled, whatever is added later. */
  lemma LaterChain(cont: Lba, sectors: seq<Sector>, shared: seq<Entry>, room: nat, k: nat, n: nat, area: seq<Sector>,
      list: seq<Entry>, later: seq<Sector>)
    returns (next: seq<Sector>, ce: Entry, trail: Trail)
    requires AllValid(shared) && n > 0 && Kept(room, shared) == k < |shared| && AreaOk(sectors) == true
    requires SplitsTo(cont, sectors, shared, room, n, area, list) == true && Extends(area, later) == true
    ensures ce.CE? && AreaOk(next) == true && Chain(cont, later, ce, trail, shared[k..]) == true
    ensures SplitsTo(cont, next, shared[k := ce], room, n - 1, area, list) == true
  {
    SplitStep(cont, sectors, shared, room, n, area, list);
    assert Unfold(true);
    trail := FirstChain(cont, sectors, shared, room, n, later);
    var a := Appended(cont, sectors, shared[k..]);
    next, ce := a.0, a.1;
  }

  lemma ClobberedMark(room: nat, es: seq<Entry>, n: nat, ce: Entry)
    requires AllValid(es) && room >= CE_LENGTH && Clobbered(room, es, n) && ce.CE?
    ensures var k := Kept(room, es); |es| - k >= 2 && Marked(room, es, k, es[k := ce]) == true
  {
    var k := Kept(room, es);
    KeptFits(room, es);
    ReplacedValid(es, k, ce);
    ReplacedSame(es, k, ce);
    KeptSame(room, es[k := ce], es[k := MARK]);
    var shared := es[k := ce];
    assert shared[..k] == es[..k] && shared[k + 1..] == es[k + 1..];
    CeShown(shared, k, room);
    assert shared[..|es|] == shared;
  }

  /** The first part's CE comes to just the entries it spilled. */
  lemma FirstMarked(read: Reader, cont: Lba, es: seq<Entry>, room: nat, k: nat, n: nat, later: seq<Sector>, ce: Entry,
      trail: Trail)
    requires AllValid(es) == true && Plain(es) && room >= CE_LENGTH && Clobbered(room, es, n) == true
    requires k == Kept(room, es)
    requires Readable(read, cont, later) == true && ce.CE? && Chain(cont, later, ce, trail, es[k..]) == true
    ensures |es| - k >= 2 && MarkedWith(read, room, es, k, es[k := ce], multiset(es[k..])) == true
  {
    ClobberedMark(room, es, n, ce);
    PlainComes(read, es[k..]);
    ChainComes(read, cont, later, ce, trail, es[k..], multiset(es[k..]));
    assert es[k := ce][k] == ce;
  }

  lemma FirstGrows(read: Reader, cont: Lba, sectors: seq<Sector>, es: seq<Entry>, room: nat, k: nat, n: nat,
      later: seq<Sector>, area: seq<Sector>, list: seq<Entry>)
    requires AllValid(es) == true && Plain(es) && room >= CE_LENGTH && AreaOk(sectors) == true
    requires Clobbered(room, es, n) == true
    requires k == Kept(room, es)
    requires SplitsTo(cont, sectors, es, room, n, area, list) == true && Extends(area, later) == true
    requires Readable(read, cont, later) == true
    ensures |es| - k >= 2 && MarkedWith(read, room, es, k, list, Surplus(es, k, n)) == true
  {
    var next, ce, trail := LaterChain(cont, sectors, es, room, k, n, area, list, later);
    FirstMarked(read, cont, es, room, k, n, later, ce, trail);
    ClobberGrows(read, cont, later, next, es[k := ce], es, room, k, n - 1, multiset(es[k..]), area, list);
  }

  /** What a CE at `k` comes to after `n` parts have put theirs there: the entries from `k` on, and those behind `k`
    once more for each further part. */
  ghost function Surplus(es: seq<Entry>, k: nat, n: nat): Bag
    requires k < |es| && n > 0
  {
    multiset(es[k..]) + Copies(n - 1, multiset(es[k + 1..]))
  }

  /** The list expands to the entries before `k`, and then to all of the surplus. */
  ghost predicate Repeats(read: Reader, todo: seq<Entry>, es: seq<Entry>, k: nat, n: nat) {
    k < |es| && n > 0 && exists tail :: ExpandsBy(read, todo, es[..k] + tail) && multiset(tail) == Surplus(es, k, n)
  }

  /** A clobbered first record comes to the inode's entries, with those behind the CE repeated once per further part. */
  lemma ClobberedIsLost(read: Reader, cont: Lba, sectors: seq<Sector>, es: seq<Entry>, room: nat, n: nat,
      later: seq<Sector>)
    requires AllValid(es) && Plain(es) && room >= CE_LENGTH && AreaOk(sectors) && Clobbered(room, es, n)
    requires Extends(Split(cont, sectors, es, room, n).0, later) && Readable(read, cont, later) == true
    ensures Repeats(read, FirstShown(cont, sectors, es, room, n), es, Kept(room, es), n) == true
    ensures !ExpandsBy(read, FirstShown(cont, sectors, es, room, n), es)
  {
    var area, list := ShownAtMark(cont, sectors, es, room, n, later);
    FirstGrows(read, cont, sectors, es, room, Kept(room, es), n, later, area, list);
    LostAt(read, es, Kept(room, es), list, room, n);
  }

  lemma ShownAtMark(cont: Lba, sectors: seq<Sector>, es: seq<Entry>, room: nat, n: nat, later: seq<Sector>)
    returns (area: seq<Sector>, list: seq<Entry>)
    requires AllValid(es) && n > 0 && Kept(room, es) < |es| && Extends(Split(cont, sectors, es, room, n).0, later)
    ensures SplitsTo(cont, sectors, es, room, n, area, list) == true && Extends(area, later) == true
    ensures var k := Kept(room, es); k < |list| && FirstShown(cont, sectors, es, room, n) == list[..k] + [list[k]]
  {
    var r := Split(cont, sectors, es, room, n);
    area, list := r.0, r.1;
    Snoc(list, Kept(room, es));
  }

  lemma LostAt(read: Reader, es: seq<Entry>, k: nat, shared: seq<Entry>, room: nat, n: nat)
    requires k < |es| - 1 && n > 1 && MarkedWith(read, room, es, k, shared, Surplus(es, k, n)) == true && Plain(es)
    ensures Repeats(read, shared[..k] + [shared[k]], es, k, n) == true
    ensures !ExpandsBy(read, shared[..k] + [shared[k]], es)
  {
    assert Unfold(true) && UnfoldBag(true);
    var d: nat, t: nat :| Counted(read, [shared[k]], d, Surplus(es, k, n), t);
    BagIsExpansion(read, [shared[k]], d, Surplus(es, k, n), t);
    var tail := Expand(read, [shared[k]], t).value;
    PlainFront(read, es[..k], [shared[k]], tail);
    SurplusMore(es, k, n);
    assert |multiset(tail)| == |tail|;
    NotExpanded(read, es[..k] + [shared[k]], es[..k] + tail, es);
  }

  lemma SurplusMore(es: seq<Entry>, k: nat, n: nat)
    requires k < |es| - 1 && n > 1
    ensures |Surplus(es, k, n)| > |es| - k
  {
    var tail := multiset(es[k + 1..]);
    assert Copies(n - 1, tail) == tail + Copies(n - 2, tail);
    assert |tail| == |es| - k - 1 && |multiset(es[k..])| == |es| - k;
  }

  /** The first record of an inode with any number of parts leads back to its entries exactly if it is not clobbered. */
  lemma FirstRecordReadsBack(iso: Bytes, cont: Lba, sectors: seq<Sector>, es: seq<Entry>, room: nat, n: nat,
      later: seq<Sector>)
    requires AllValid(es) && Plain(es) && room >= CE_LENGTH && n > 0 && AreaOk(sectors)
    requires Extends(Split(cont, sectors, es, room, n).0, later) && AreaOk(later)
    requires Expansion.Holds(iso, cont, later) && cont + |later| <= 0x20_0000
    ensures ExpandsTo(iso, FirstShown(cont, sectors, es, room, n), es) <==> !Clobbered(room, es, n)
    ensures Clobbered(room, es, n) ==>
      Repeats(ReaderOf(iso), FirstShown(cont, sectors, es, room, n), es, Kept(room, es), n) == true
  {
    ImageReadable(iso, cont, later);
    if Clobbered(room, es, n) {
      ClobberedIsLost(ReaderOf(iso), cont, sectors, es, room, n, later);
    } else {
      UnclobberedReadsBack(ReaderOf(iso), cont, sectors, es, room, n, later);
    }
  }

  /** The record holds the address and size of the item's first part, and leads back to its entries exactly if it is
    not clobbered; with a single part it never is. A clobbered one leads to the entries and some repeated. */
  ghost predicate Recorded(iso: Bytes, it: Item, rec: Record) {
    it.parts != [] && rec.identifier == it.identifier && rec.start == it.parts[0].start
      && rec.length == it.parts[0].size
    && DirFlag(rec) == it.isDir
    && |it.identifier| <= MAX_IDENTIFIER
    && (ExpandsTo(iso, rec.systemUse, it.entries) <==> !Clobbered(RoomFor(it.identifier), it.entries, |it.parts|))
    && (Clobbered(RoomFor(it.identifier), it.entries, |it.parts|) ==>
      Repeats(ReaderOf(iso), rec.systemUse, it.entries, Kept(RoomFor(it.identifier), it.entries), |it.parts|) == true)
  }

  /** In any image that holds a directory's area, every item is recorded in the first of its records. */
  lemma ItemReadsBack(cont: Lba, items: seq<Item>, i: nat, iso: Bytes)
    requires ItemsOk(items) && i < |items| && Plain(items[i].entries)
    requires AreaOk(Pack(cont, items).0) == true && Expansion.Holds(iso, cont, Pack(cont, items).0) == true
    requires cont + |Pack(cont, items).0| <= 0x20_0000
    ensures var at, recs := FirstRecord(cont, items, i), Pack(cont, items).1;
      at < |recs| && Recorded(iso, items[i], recs[at]) == true
  {
    var it := items[i];
    assert ItemOk(it);
    var before, n := Pack(cont, items[..i]).0, |it.parts|;
    PackInOrder(cont, items[..i]);
    PackGrows(cont, items, i + 1);
    ItemRecords(cont, items, i, 0);
    FirstIsShown(cont, items, i);
    FirstRecordReadsBack(iso, cont, before, it.entries, RoomFor(it.identifier), n, Pack(cont, items).0);
  }

  lemma FirstIsShown(cont: Lba, items: seq<Item>, i: nat)
    requires ItemsOk(items) && i < |items| && ItemOk(items[i])
    ensures var at, it, before := FirstRecord(cont, items, i), items[i], Pack(cont, items[..i]).0;
      at < |Pack(cont, items).1|
      && Pack(cont, items[..i + 1]).0 == Split(cont, before, it.entries, RoomFor(it.identifier), |it.parts|).0
      && Pack(cont, items).1[at].systemUse == FirstShown(cont, before, it.entries, RoomFor(it.identifier), |it.parts|)
  {
    var it, before := items[i], Pack(cont, items[..i]);
    Snoc(items, i);
    PackGrows(cont, items, i + 1);
    var r := Split(cont, before.0, it.entries, RoomFor(it.identifier), |it.parts|);
    AtBack(before.1, RecordsOf(it, r.1, r.2), Pack(cont, items).1, 0);
  }
}
