/** The memory cache of pkg/caching/mem.go as a step system. Any number of readers
  and read-aheads look buffers up in one LRU pool, and only later lock the buffer
  they were given: by then the pool may have handed it to another key. */
module MemCache {
  import opened Prelude

  type Actor = nat
  type Buf = nat

  /** The source formats these fields into a string. */
  type Key = SliceKey

  // ----- the pool -----

  /** `order` lists the keys from least to most recently used. */
  datatype Pool = Pool(bcount: nat, next: nat, order: seq<Key>, entries: map<Key, Buf>)

  ghost predicate Distinct(order: seq<Key>) {
    forall i, j {:trigger order[i], order[j]} | 0 <= i < j < |order| :: order[i] != order[j]
  }

  function Without(order: seq<Key>, k: Key): (r: seq<Key>)
    ensures forall x :: x in r <==> x in order && x != k
  {
    if order == [] then [] else if order[0] == k then Without(order[1..], k) else [order[0]] + Without(order[1..], k)
  }

  lemma {:induction false} WithoutDistinct(order: seq<Key>, k: Key)
    requires Distinct(order)
    ensures Distinct(Without(order, k))
  {
    if order != [] {
      var rest := Without(order[1..], k);
      WithoutDistinct(order[1..], k);
      forall i | 0 <= i < |rest| ensures rest[i] != order[0] {
        assert rest[i] in rest;
      }
    }
  }

  lemma AppendDistinct(order: seq<Key>, k: Key)
    requires Distinct(order) && k !in order
    ensures Distinct(order + [k])
  {
  }

  /** `memPool.Get`: a hit, a new buffer, or the least recently used one. */
  function Get(pool: Pool, k: Key): (r: (Pool, Buf))
    requires PoolOk(pool)
  {
    if k in pool.entries then
      (pool.(order := Without(pool.order, k) + [k]), pool.entries[k])
    else if pool.next < pool.bcount then
      (pool.(next := pool.next + 1, order := pool.order + [k], entries := pool.entries[k := pool.next]), pool.next)
    else
      assert pool.next > 0 && pool.order != [] && pool.order[0] in pool.entries by { PoolFull(pool); }
      var oldest := pool.order[0];
      var b := pool.entries[oldest];
      (pool.(order := pool.order[1..] + [k], entries := (pool.entries - {oldest})[k := b]), b)
  }

  /** The pool's invariant, carried whole by the verifier except where `Unfold(true)` is asserted. */
  ghost predicate PoolOk(pool: Pool) {
    forall u {:trigger Unfold(u)} :: Unfold(u) ==> Orderly(pool)
  }

  /** No buffer sits under two keys, and there are never more than `bcount`. */
  ghost predicate Orderly(pool: Pool) {
    && 0 < pool.bcount && pool.next <= pool.bcount
    && |pool.entries| == pool.next
    && Distinct(pool.order) && (forall k :: k in pool.order <==> k in pool.entries)
    && OneKeyEach(pool.entries, pool.next)
  }

  ghost predicate OneKeyEach(entries: map<Key, Buf>, next: nat) {
    && (forall k | k in entries :: entries[k] < next)
    && (forall k1, k2 {:trigger entries[k1], entries[k2]} | k1 in entries && k2 in entries ::
      entries[k1] == entries[k2] ==> k1 == k2)
  }

  lemma PoolFull(pool: Pool)
    requires PoolOk(pool)
    ensures 0 < pool.bcount && pool.next <= pool.bcount
    ensures pool.next > 0 ==> pool.order != [] && pool.order[0] in pool.entries
  {
    assert Unfold(true);
    if pool.next > 0 {
      assert pool.entries.Keys != {};
      var k :| k in pool.entries;
      assert k in pool.order && pool.order[0] in pool.order;
    }
  }

  ghost predicate Filed(pool: Pool, k: Key, b: Buf) {
    PoolOk(pool) && k in pool.entries && pool.entries[k] == b && pool.order != [] && pool.order[|pool.order| - 1] == k
  }

  lemma HitKeeps(pool: Pool, k: Key)
    requires PoolOk(pool) && k in pool.entries
    ensures Filed(Get(pool, k).0, k, Get(pool, k).1)
  {
    assert Unfold(true);
    WithoutDistinct(pool.order, k);
    AppendDistinct(Without(pool.order, k), k);
  }

  lemma GrowKeeps(pool: Pool, k: Key)
    requires PoolOk(pool) && k !in pool.entries && pool.next < pool.bcount
    ensures Filed(Get(pool, k).0, k, Get(pool, k).1)
  {
    assert Unfold(true);
    AppendDistinct(pool.order, k);
  }

  lemma EvictEntries(entries: map<Key, Buf>, next: nat, oldest: Key, k: Key)
    requires OneKeyEach(entries, next) && |entries| == next && oldest in entries && k !in entries
    ensures var entries' := (entries - {oldest})[k := entries[oldest]];
      OneKeyEach(entries', next) && |entries'| == next && entries'.Keys == entries.Keys - {oldest} + {k}
  {
    var entries' := (entries - {oldest})[k := entries[oldest]];
    assert entries'.Keys == entries.Keys - {oldest} + {k};
    assert |entries'| == |entries'.Keys|;
  }

  lemma EvictOrder(order: seq<Key>, k: Key)
    requires Distinct(order) && order != [] && k !in order
    ensures Distinct(order[1..] + [k])
    ensures forall x :: x in order[1..] + [k] <==> (x in order && x != order[0]) || x == k
  {
    assert order == [order[0]] + order[1..];
    assert order[0] !in order[1..];
    AppendDistinct(order[1..], k);
  }

  lemma EvictKeeps(pool: Pool, k: Key)
    requires PoolOk(pool) && k !in pool.entries && pool.next == pool.bcount
    ensures Filed(Get(pool, k).0, k, Get(pool, k).1)
  {
    PoolFull(pool);
    assert Orderly(pool) by { assert Unfold(true); }
    EvictEntries(pool.entries, pool.next, pool.order[0], k);
    EvictOrder(pool.order, k);
    assert Orderly(Get(pool, k).0);
  }

  /** Every lookup keeps the pool in order and files the key under the buffer it returns, most recently used;
    a miss with all buffers handed out takes the first key's buffer and forgets only that key. */
  lemma GetKeeps(pool: Pool, k: Key)
    requires PoolOk(pool)
    ensures var (pool', b) := Get(pool, k);
      && Filed(pool', k, b) && pool'.bcount == pool.bcount
      && b < pool'.next && pool.next <= pool'.next <= pool.next + 1 && (pool.next < pool'.next ==> b == pool.next)
      && (forall x | x in pool.entries && x !in pool'.entries ::
        pool.next == pool.bcount && pool.order != [] && x == pool.order[0])
      && (forall x | x in pool'.entries && x != k :: x in pool.entries && pool'.entries[x] == pool.entries[x])
  {
    PoolFull(pool);
    if k in pool.entries { HitKeeps(pool, k); }
    else if pool.next < pool.bcount { GrowKeeps(pool, k); }
    else { EvictKeeps(pool, k); }
    assert Unfold(true);
  }

  // ----- the pool and the history of lookups -----

  /** The pool after some lookups, the first one on an empty pool. */
  ghost function PoolAfter(bcount: nat, history: seq<Key>): (pool: Pool)
    requires bcount > 0
    ensures PoolOk(pool) && pool.bcount == bcount
  {
    if history == [] then EmptyPool(bcount); Pool(bcount, 0, [], map[])
    else
      var before, k := PoolAfter(bcount, history[..|history| - 1]), history[|history| - 1];
      GetKeeps(before, k);
      Get(before, k).0
  }

  /** When a key was last looked up; -1 if never. */
  ghost function LastUse(history: seq<Key>, k: Key): (r: int)
    ensures -1 <= r < |history| && (r == -1 <==> k !in history)
    ensures r >= 0 ==> history[r] == k && k !in history[r + 1..]
  {
    if history == [] then -1
    else if history[|history| - 1] == k then |history| - 1
    else LastUse(history[..|history| - 1], k)
  }

  /** All keys looked up, in the order of their last lookups. */
  ghost function ByUse(history: seq<Key>): seq<Key> {
    if history == [] then []
    else Without(ByUse(history[..|history| - 1]), history[|history| - 1]) + [history[|history| - 1]]
  }

  /** Each key was last used before those that follow. */
  ghost predicate Rising(order: seq<Key>, history: seq<Key>) {
    forall i, j {:trigger order[i], order[j]} | 0 <= i < j < |order| ::
      LastUse(history, order[i]) < LastUse(history, order[j])
  }

  ghost predicate UsedBefore(k: Key, order: seq<Key>, history: seq<Key>) {
    forall x | x in order :: LastUse(history, k) < LastUse(history, x)
  }

  lemma RisingCons(k: Key, order: seq<Key>, history: seq<Key>)
    requires Rising(order, history) && UsedBefore(k, order, history)
    ensures Rising([k] + order, history)
  {
  }

  lemma RisingTail(order: seq<Key>, history: seq<Key>)
    requires Rising(order, history) && order != []
    ensures Rising(order[1..], history) && UsedBefore(order[0], order[1..], history)
  {
    var rest := order[1..];
    forall x | x in rest ensures LastUse(history, order[0]) < LastUse(history, x) {
      var j :| 0 <= j < |rest| && rest[j] == x;
      assert order[j + 1] == x;
    }
  }

  lemma {:induction false} WithoutRising(order: seq<Key>, k: Key, history: seq<Key>)
    requires Rising(order, history)
    ensures Rising(Without(order, k), history)
  {
    if order != [] {
      RisingTail(order, history);
      WithoutRising(order[1..], k, history);
      if order[0] != k { RisingCons(order[0], Without(order[1..], k), history); }
    }
  }

  lemma RisingStays(order: seq<Key>, history: seq<Key>, k: Key)
    requires Rising(order, history) && k !in order
    ensures Rising(order, history + [k])
  {
    assert (history + [k])[..|history|] == history;
    forall x | x in order ensures LastUse(history + [k], x) == LastUse(history, x) {}
  }

  lemma {:induction false} ByUseIs(history: seq<Key>)
    ensures Rising(ByUse(history), history) && forall k :: k in ByUse(history) <==> k in history
  {
    if history != [] {
      var last := |history| - 1;
      var before, k := history[..last], history[last];
      var rest := Without(ByUse(before), k);
      ByUseIs(before);
      WithoutRising(ByUse(before), k, before);
      assert history == before + [k];
      RisingStays(rest, before, k);
      forall i | 0 <= i < |rest| ensures LastUse(history, rest[i]) < last { assert rest[i] in rest; }
    }
  }

  /** The last `n` of a list, or all. */
  ghost function Latest(order: seq<Key>, n: nat): seq<Key> {
    if |order| <= n then order else order[|order| - n..]
  }

  lemma {:induction false} WithoutNone(order: seq<Key>, k: Key)
    requires k !in order
    ensures Without(order, k) == order
  {
    if order != [] { WithoutNone(order[1..], k); }
  }

  lemma {:induction false} WithoutJoin(a: seq<Key>, b: seq<Key>, k: Key)
    ensures Without(a + b, k) == Without(a, k) + Without(b, k)
  {
    if a == [] {
      assert a + b == b;
    } else {
      assert (a + b)[1..] == a[1..] + b;
      WithoutJoin(a[1..], b, k);
    }
  }

  lemma {:induction false} WithoutLen(order: seq<Key>, k: Key)
    requires Distinct(order)
    ensures |Without(order, k)| == if k in order then |order| - 1 else |order|
  {
    if order != [] {
      WithoutLen(order[1..], k);
      if order[0] == k { assert forall i | 1 <= i < |order| :: order[i] != k; assert k !in order[1..]; }
    }
  }

  lemma SplitDistinct(gone: seq<Key>, kept: seq<Key>, k: Key)
    requires Distinct(gone + kept) && k in kept
    ensures k !in gone && Distinct(kept)
  {
    var all := gone + kept;
    var j :| 0 <= j < |kept| && kept[j] == k;
    assert all[|gone| + j] == k;
    forall i | 0 <= i < |gone| ensures gone[i] != k { assert all[i] == gone[i]; }
    forall a, b | 0 <= a < b < |kept| ensures kept[a] != kept[b] {
      assert all[|gone| + a] == kept[a] && all[|gone| + b] == kept[b];
    }
  }

  lemma LatestOf(a: seq<Key>, b: seq<Key>, n: nat)
    requires |b| == n || (|b| < n && a == [])
    ensures Latest(a + b, n) == b
  {
  }

  /** A key that is kept moves to the end. */
  lemma LatestHit(gone: seq<Key>, kept: seq<Key>, k: Key, n: nat)
    requires Distinct(gone + kept) && k in kept && (|kept| == n || (|kept| < n && gone == []))
    ensures Latest(Without(gone + kept, k) + [k], n) == Without(kept, k) + [k]
  {
    SplitDistinct(gone, kept, k);
    WithoutJoin(gone, kept, k);
    WithoutNone(gone, k);
    WithoutLen(kept, k);
    Assoc(gone, Without(kept, k), [k]);
    LatestOf(gone, Without(kept, k) + [k], n);
  }

  /** Another one goes to the end, and the first one out if there is no room. */
  lemma LatestMiss(gone: seq<Key>, kept: seq<Key>, k: Key, n: nat)
    requires k !in kept && n > 0 && (|kept| == n || (|kept| < n && gone == []))
    ensures Latest(Without(gone + kept, k) + [k], n) == if |kept| < n then kept + [k] else kept[1..] + [k]
  {
    WithoutJoin(gone, kept, k);
    WithoutNone(kept, k);
    var left := Without(gone, k);
    Assoc(left, kept, [k]);
    if |kept| < n {
      LatestOf(left, kept + [k], n);
    } else {
      assert left + (kept + [k]) == left + [kept[0]] + (kept[1..] + [k]);
      LatestOf(left + [kept[0]], kept[1..] + [k], n);
    }
  }

  /** What one lookup does to the latest keys. */
  lemma LatestNext(order: seq<Key>, k: Key, n: nat)
    requires Distinct(order) && n > 0
    ensures var kept := Latest(order, n);
      Latest(Without(order, k) + [k], n) == if k in kept then Without(kept, k) + [k]
        else if |kept| < n then kept + [k] else kept[1..] + [k]
  {
    var cut := if |order| <= n then 0 else |order| - n;
    Two(order, cut);
    assert Latest(order, n) == order[cut..];
    if k in order[cut..] { LatestHit(order[..cut], order[cut..], k, n); }
    else { LatestMiss(order[..cut], order[cut..], k, n); }
  }

  /** The pool holds exactly the keys looked up latest, in the order of their last lookups. */
  lemma {:induction false} PoolIsLatest(bcount: nat, history: seq<Key>)
    requires bcount > 0
    ensures PoolAfter(bcount, history).order == Latest(ByUse(history), bcount)
    ensures Distinct(ByUse(history)) && PoolAfter(bcount, history).next == |PoolAfter(bcount, history).order|
  {
    ByUseIs(history);
    if history != [] {
      var last := |history| - 1;
      var before, k := history[..last], history[last];
      PoolIsLatest(bcount, before);
      WithoutDistinct(ByUse(before), k);
      AppendDistinct(Without(ByUse(before), k), k);
      LatestNext(ByUse(before), k, bcount);
      GetOrder(PoolAfter(bcount, before), k);
    }
  }

  lemma GetOrder(pool: Pool, k: Key)
    requires PoolOk(pool) && pool.next == |pool.order|
    ensures var pool' := Get(pool, k).0;
      0 < pool.bcount && pool'.order == (if k in pool.order then Without(pool.order, k) + [k]
        else if |pool.order| < pool.bcount then pool.order + [k] else pool.order[1..] + [k])
      && pool'.next == |pool'.order| && |pool.order| <= pool.bcount
  {
    assert Unfold(true);
    WithoutLen(pool.order, k);
    PoolFull(pool);
  }

  /** The keys last looked up after `k` was. */
  ghost function UsedSince(history: seq<Key>, k: Key): set<Key> {
    set x | x in history && LastUse(history, x) > LastUse(history, k)
  }

  lemma {:induction false} CountAfter(order: seq<Key>, history: seq<Key>, i: nat)
    requires Rising(order, history) && i < |order| && forall k :: k in order <==> k in history
    ensures |UsedSince(history, order[i])| == |order| - 1 - i
  {
    var since := UsedSince(history, order[i]);
    var tail := order[i + 1..];
    forall x ensures x in since <==> x in tail {
      if x in since {
        assert x in order;
        var j :| 0 <= j < |order| && order[j] == x;
        assert j > i && tail[j - i - 1] == x;
      }
      if x in tail {
        var j :| 0 <= j < |tail| && tail[j] == x;
        assert order[i + 1 + j] == x && x in order;
      }
    }
    SetSize(tail, since, history);
  }

  lemma {:induction false} SetSize(order: seq<Key>, keys: set<Key>, history: seq<Key>)
    requires Rising(order, history) && forall x :: x in keys <==> x in order
    ensures |keys| == |order|
    decreases |order|
  {
    if order == [] {
      assert keys == {};
    } else {
      var rest := order[1..];
      forall x ensures x in keys - {order[0]} <==> x in rest {
        if x in rest {
          var j :| 0 <= j < |rest| && rest[j] == x;
          assert order[j + 1] == x;
        }
      }
      assert order[0] in keys;
      SetSize(rest, keys - {order[0]}, history);
    }
  }

  lemma InLatest(order: seq<Key>, n: nat, i: nat)
    requires Distinct(order) && i < |order|
    ensures order[i] in Latest(order, n) <==> |order| - 1 - i < n
  {
    if |order| > n {
      var cut := |order| - n;
      var kept := order[cut..];
      if i >= cut { assert kept[i - cut] == order[i]; }
      forall j | 0 <= j < |kept| ensures kept[j] == order[cut + j] {}
    }
  }

  lemma FiledInOrder(pool: Pool, k: Key)
    requires PoolOk(pool)
    ensures k in pool.order <==> k in pool.entries
  {
    assert Unfold(true);
  }

  /** A key is filed exactly if it was looked up and fewer than `bcount` other keys were since: the pool is LRU. */
  lemma FiledExactly(bcount: nat, history: seq<Key>, k: Key)
    requires bcount > 0
    ensures k in PoolAfter(bcount, history).entries <==> k in history && |UsedSince(history, k)| < bcount
  {
    var all := ByUse(history);
    ByUseIs(history);
    PoolIsLatest(bcount, history);
    FiledInOrder(PoolAfter(bcount, history), k);
    if k in all {
      var i :| 0 <= i < |all| && all[i] == k;
      CountAfter(all, history, i);
      InLatest(all, bcount, i);
    }
  }

  /** The key that makes room is the one whose last lookup is the earliest, and its buffer is the one handed out. */
  lemma OldestMakesRoom(bcount: nat, history: seq<Key>, k: Key, x: Key)
    requires bcount > 0
    requires var pool := PoolAfter(bcount, history); x in pool.entries && x !in Get(pool, k).0.entries
    ensures var pool := PoolAfter(bcount, history);
      Get(pool, k).1 == pool.entries[x] && forall y | y in pool.entries :: LastUse(history, x) <= LastUse(history, y)
  {
    var pool := PoolAfter(bcount, history);
    ByUseIs(history);
    PoolIsLatest(bcount, history);
    PoolFull(pool);
    GetKeeps(pool, k);
    assert x == pool.order[0];
    forall y | y in pool.entries ensures LastUse(history, x) <= LastUse(history, y) {
      assert y in pool.order by { assert Unfold(true); }
      var j :| 0 <= j < |pool.order| && pool.order[j] == y;
      var all := ByUse(history);
      var cut := if |all| <= bcount then 0 else |all| - bcount;
      assert pool.order == all[cut..];
      if j > 0 { assert LastUse(history, all[cut]) < LastUse(history, all[cut + j]); }
    }
  }

  lemma EmptyPool(bcount: nat)
    requires bcount > 0
    ensures PoolOk(Pool(bcount, 0, [], map[]))
  {
    var pool := Pool(bcount, 0, [], map[]);
    assert |pool.entries| == 0;
    assert Orderly(pool);
  }

  // ----- buffers and the threads that use them -----

  /** A `memBuf`: whose bytes it claims to hold, and how many. */
  datatype Buffer = Buffer(key: Option<Key>, n: nat, buf: Bytes)

  /** A call of ReadAt, or of ReadAhead when `ahead`. */
  datatype Job = Job(key: Key, ahead: bool, off: nat, len: nat)

  datatype Outcome = Bytes(bytes: Bytes) | EndOfFile | Failed

  datatype Stage =
    | Looking                 // about to ask the pool
    | Given(b: Buf)           // has a buffer, not its lock
    | Holding(b: Buf)         // has the lock
    | Filling(b: Buf)         // claimed the buffer for its key, source read under way
    | Checked(b: Buf, ok: bool) // filled, or found filled, or the fill failed
    | Returned(outcome: Outcome)

  datatype Thread = Thread(job: Job, stage: Stage)

  /** `failedAhead` records the keys of which a read-ahead has failed. */
  datatype State = State(
    pool: Pool, buffers: map<Buf, Buffer>, locks: map<Buf, Actor>, threads: map<Actor, Thread>, failedAhead: set<Key>)

  datatype Config = Config(source: Key -> Bytes) {
    /** The source holds all the bytes a key names; a shorter one makes the fill fail. */
    ghost predicate Complete(k: Key) { |source(k)| == k.len }
  }

  datatype Step =
    | Start(a: Actor, job: Job)
    | Lookup(a: Actor)
    | Skip(a: Actor)                    // nothing was asked for
    | Acquire(a: Actor)
    | Claim(a: Actor)                   // the key differs: take the buffer over
    | Keep(a: Actor)                    // the key matches
    | Scribble(a: Actor, content: Bytes) // the source read overwrites the buffer bit by bit
    | FillDone(a: Actor, content: Bytes)
    | FillFails(a: Actor)
    | Finish(a: Actor)                  // copy out and unlock

  ghost function Goto(s: State, a: Actor, stage: Stage): State
    requires a in s.threads
  {
    s.(threads := s.threads[a := s.threads[a].(stage := stage)])
  }

  ghost predicate Next(c: Config, s: State, s': State, step: Step) {
    After(c, s, step) == Some(s')
  }

  ghost function After(c: Config, s: State, step: Step): Option<State> {
    if step.Start? then
      if step.a in s.threads then None
      else Some(s.(threads := s.threads[step.a := Thread(step.job, Looking)]))
    else if step.a !in s.threads || !PoolOk(s.pool) then None
    else Move(c, s, step, s.threads[step.a].job, s.threads[step.a].stage)
  }

  /** The copy at the end of `FillAndCopyAt`, and the reset after a failure. */
  ghost function Answer(job: Job, buffer: Buffer, ok: bool): (Outcome, Buffer) {
    if job.ahead then (if ok then Bytes([]) else Failed, buffer)
    else if !ok then (Failed, buffer.(key := None, n := 0))
    else if job.off < buffer.n <= |buffer.buf| then (Bytes(Copied(buffer.buf[..buffer.n], job.off, job.len)), buffer)
    else (EndOfFile, buffer)
  }

  ghost function Move(c: Config, s: State, step: Step, job: Job, stage: Stage): Option<State>
    requires step.a in s.threads && PoolOk(s.pool)
  {
    var a := step.a;
    match (step, stage)
    case (Lookup(_), Looking) =>
      var (pool', b) := Get(s.pool, job.key);
      var buffers' := if b in s.buffers then s.buffers else s.buffers[b := Buffer(None, 0, [])];
      Some(Goto(s, a, Given(b)).(pool := pool', buffers := buffers'))
    case (Skip(_), Given(_)) => if job.ahead || job.len > 0 then None else Some(Goto(s, a, Returned(Bytes([]))))
    case (Acquire(_), Given(b)) =>
      if b in s.locks || (!job.ahead && job.len == 0) then None
      else Some(Goto(s, a, Holding(b)).(locks := s.locks[b := a]))
    case (Claim(_), Holding(b)) =>
      if b !in s.buffers || s.buffers[b].key == Some(job.key) then None
      else Some(Goto(s, a, Filling(b)).(buffers := s.buffers[b := s.buffers[b].(key := Some(job.key))]))
    case (Keep(_), Holding(b)) =>
      if b !in s.buffers || s.buffers[b].key != Some(job.key) then None else Some(Goto(s, a, Checked(b, true)))
    case (Scribble(_, content), Filling(b)) =>
      if b !in s.buffers then None else Some(s.(buffers := s.buffers[b := s.buffers[b].(buf := content)]))
    case (FillDone(_, content), Filling(b)) =>
      if b !in s.buffers || !c.Complete(job.key) || !(c.source(job.key) <= content) then None
      else
        Some(Goto(s, a, Checked(b, true)).(
          buffers := s.buffers[b := s.buffers[b].(n := job.key.len, buf := content)]))
    case (FillFails(_), Filling(b)) =>
      if b !in s.buffers then None
      else Some(Goto(s, a, Checked(b, false)).(buffers := s.buffers[b := s.buffers[b].(n := 0)],
                                               failedAhead := s.failedAhead + if job.ahead then {job.key} else {}))
    case (Finish(_), Checked(b, ok)) =>
      if b !in s.buffers then None
      else
        var (outcome, buffer) := Answer(job, s.buffers[b], ok);
        Some(Goto(s, a, Returned(outcome)).(buffers := s.buffers[b := buffer], locks := s.locks - {b}))
    case _ => None
  }

  ghost predicate Init(s: State, bcount: nat) {
    bcount > 0 && s == State(Pool(bcount, 0, [], map[]), map[], map[], map[], {})
  }

  // ----- what must hold in every state -----

  /** Bytes are the source's, and there are some if any were asked for; the end of the slice is reported exactly past
    it, or for a key of which a read-ahead has failed. */
  ghost predicate AnswerOk(c: Config, s: State, job: Job, outcome: Outcome) {
    match outcome
    case Bytes(p) =>
      if job.ahead then p == []
      else p == Copied(c.source(job.key), job.off, job.len) && (job.len > 0 ==> job.off < job.key.len)
    case EndOfFile => !job.ahead && job.len > 0 && (job.key in s.failedAhead || job.off >= job.key.len)
    case Failed => job.ahead || job.len > 0
  }

  /** No lock is left behind: whoever holds one is still at work with it. */
  ghost predicate NoLockLeft(s: State) {
    forall b | b in s.locks :: s.locks[b] in s.threads && Locked(s.threads[s.locks[b]].stage) == Some(b)
  }

  ghost predicate Safe(c: Config, s: State) {
    && Orderly(s.pool)
    && |s.buffers| <= s.pool.bcount && NoLockLeft(s)
    && forall a | a in s.threads && s.threads[a].stage.Returned? ::
         AnswerOk(c, s, s.threads[a].job, s.threads[a].stage.outcome)
  }

  // ----- the inductive invariant -----

  /** A buffer at rest holds its key's bytes, or none after a failed read-ahead. */
  ghost predicate BufferOk(c: Config, s: State, buffer: Buffer) {
    buffer.key.Some? ==>
      var k := buffer.key.value;
      (c.Complete(k) && buffer.n == k.len && c.source(k) <= buffer.buf) || (k in s.failedAhead && buffer.n == 0)
  }

  ghost function Locked(stage: Stage): Option<Buf> {
    match stage
    case Holding(b) => Some(b)
    case Filling(b) => Some(b)
    case Checked(b, _) => Some(b)
    case _ => None
  }

  ghost predicate ThreadOk(c: Config, s: State, a: Actor)
    requires a in s.threads
  {
    var Thread(job, stage) := s.threads[a];
    && (Locked(stage).Some? ==>
      Locked(stage).value in s.locks && s.locks[Locked(stage).value] == a && Locked(stage).value in s.buffers)
    && (Locked(stage).Some? ==> job.ahead || job.len > 0)
    && match stage
       case Given(b) => b in s.buffers
       case Holding(b) => BufferOk(c, s, s.buffers[b])
       case Filling(b) => s.buffers[b].key == Some(job.key)
       case Checked(b, ok) =>
         && s.buffers[b].key == Some(job.key)
         && if ok then BufferOk(c, s, s.buffers[b]) else s.buffers[b].n == 0 && (job.ahead ==> job.key in s.failedAhead)
       case Returned(outcome) => AnswerOk(c, s, job, outcome)
       case Looking => true
  }

  ghost predicate RestOk(c: Config, s: State, b: Buf)
    requires b in s.buffers
  {
    b !in s.locks ==> BufferOk(c, s, s.buffers[b])
  }

  ghost predicate Inv(c: Config, s: State) {
    && PoolOk(s.pool) && (forall b: nat :: b in s.buffers <==> b < s.pool.next)
    && NoLockLeft(s) && (forall b {:trigger RestOk(c, s, b)} | b in s.buffers :: RestOk(c, s, b))
    && (forall a {:trigger ThreadOk(c, s, a)} | a in s.threads :: ThreadOk(c, s, a))
  }

  lemma {:induction false} CountBelow(keys: set<nat>, n: nat)
    requires forall b: nat :: b in keys <==> b < n
    ensures |keys| == n
  {
    if n > 0 { CountBelow(keys - {n - 1}, n - 1); }
    assert n == 0 ==> keys == {};
  }

  lemma InvIsSafe(c: Config, s: State)
    requires Inv(c, s)
    ensures Safe(c, s)
  {
    assert Unfold(true);
    CountBelow(s.buffers.Keys, s.pool.next);
    forall a | a in s.threads ensures ThreadOk(c, s, a) {}
  }

  lemma MoverKeeps(c: Config, s: State, s': State, step: Step)
    requires Inv(c, s) && Next(c, s, s', step)
    ensures step.a in s'.threads && ThreadOk(c, s', step.a)
  {
    if step.a in s.threads {
      assert ThreadOk(c, s, step.a);
      if step.Lookup? { GetKeeps(s.pool, s.threads[step.a].job.key); }
      if step.Acquire? { assert RestOk(c, s, s.threads[step.a].stage.b); }
    }
  }

  /** What a thread relies on: its lock and the buffer behind it. */
  ghost predicate Undisturbed(s: State, s': State, x: Actor)
    requires x in s.threads
  {
    var t := s.threads[x];
    && x in s'.threads && s'.threads[x] == t && s.failedAhead <= s'.failedAhead
    && (t.stage.Given? && t.stage.b in s.buffers ==> t.stage.b in s'.buffers)
    && (Locked(t.stage).Some? ==>
          var b := Locked(t.stage).value;
          b in s.buffers && b in s'.locks && s'.locks[b] == x && b in s'.buffers && s'.buffers[b] == s.buffers[b])
  }

  lemma UndisturbedKeeps(c: Config, s: State, s': State, x: Actor)
    requires x in s.threads && ThreadOk(c, s, x) && Undisturbed(s, s', x)
    ensures ThreadOk(c, s', x)
  {
  }

  /** No step touches the lock or the buffer of another thread that has it locked. */
  lemma OthersKeep(c: Config, s: State, s': State, step: Step, x: Actor)
    requires Inv(c, s) && Next(c, s, s', step) && x in s.threads && x != step.a
    ensures Undisturbed(s, s', x)
  {
    assert ThreadOk(c, s, x);
    if step.a in s.threads {
      assert ThreadOk(c, s, step.a);
    }
  }

  lemma BuffersKeep(c: Config, s: State, s': State, step: Step)
    requires Inv(c, s) && Next(c, s, s', step)
    ensures PoolOk(s'.pool) && forall b: nat :: b in s'.buffers <==> b < s'.pool.next
  {
    if step.a in s.threads {
      assert ThreadOk(c, s, step.a);
      GetKeeps(s.pool, s.threads[step.a].job.key);
    }
  }

  lemma RestKeeps(c: Config, s: State, s': State, step: Step, b: Buf)
    requires Inv(c, s) && Next(c, s, s', step) && b in s'.buffers
    ensures RestOk(c, s', b)
  {
    if step.a in s.threads { assert ThreadOk(c, s, step.a); }
    if b in s.buffers { assert RestOk(c, s, b); }
  }

  lemma LocksStay(c: Config, s: State, s': State, step: Step)
    requires Inv(c, s) && Next(c, s, s', step)
    ensures NoLockLeft(s')
  {
    if step.a in s.threads { assert ThreadOk(c, s, step.a); }
  }

  lemma StepKeepsInv(c: Config, s: State, s': State, step: Step)
    requires Inv(c, s) && Next(c, s, s', step)
    ensures Inv(c, s')
  {
    BuffersKeep(c, s, s', step);
    LocksStay(c, s, s', step);
    forall b {:trigger RestOk(c, s', b)} | b in s'.buffers ensures RestOk(c, s', b) { RestKeeps(c, s, s', step, b); }
    forall x {:trigger ThreadOk(c, s', x)} | x in s'.threads ensures ThreadOk(c, s', x) {
      if x == step.a {
        MoverKeeps(c, s, s', step);
      } else {
        assert x in s.threads ==> ThreadOk(c, s, x);
        OthersKeep(c, s, s', step, x);
        UndisturbedKeeps(c, s, s', x);
      }
    }
  }

  lemma InitInv(c: Config, s: State, bcount: nat)
    requires Init(s, bcount)
    ensures Inv(c, s)
  {
    assert s.buffers == map[] && s.threads == map[] && s.pool == Pool(bcount, 0, [], map[]);
    EmptyPool(bcount);
  }

  ghost predicate Run(c: Config, bcount: nat, states: seq<State>, steps: seq<Step>) {
    && |states| == |steps| + 1 && Init(states[0], bcount)
    && forall i {:trigger steps[i]} | 0 <= i < |steps| :: Next(c, states[i], states[i + 1], steps[i])
  }

  /** Over every interleaving: source bytes only, a bounded pool, no buffer under two keys. */
  lemma {:induction false} RunsAreSafe(c: Config, bcount: nat, states: seq<State>, steps: seq<Step>, i: nat)
    requires Run(c, bcount, states, steps) && i < |states|
    ensures Inv(c, states[i]) && Safe(c, states[i])
  {
    if i == 0 {
      InitInv(c, states[0], bcount);
    } else {
      RunsAreSafe(c, bcount, states, steps, i - 1);
      StepKeepsInv(c, states[i - 1], states[i], steps[i - 1]);
    }
    InvIsSafe(c, states[i]);
  }

  // ----- runs and the pool -----

  /** The keys looked up in the first `i` steps. */
  ghost function Lookups(states: seq<State>, steps: seq<Step>, i: nat): seq<Key>
    requires i <= |steps| < |states|
  {
    if i == 0 then []
    else
      var before, step := Lookups(states, steps, i - 1), steps[i - 1];
      if step.Lookup? && step.a in states[i - 1].threads then before + [states[i - 1].threads[step.a].job.key]
      else before
  }

  /** In every run the pool is the one that its lookups make, whatever else happens in between. */
  lemma {:induction false} RunPool(c: Config, bcount: nat, states: seq<State>, steps: seq<Step>, i: nat)
    requires Run(c, bcount, states, steps) && i < |states|
    ensures bcount > 0 && states[i].pool == PoolAfter(bcount, Lookups(states, steps, i))
  {
    if i > 0 {
      RunPool(c, bcount, states, steps, i - 1);
      var s, step, before := states[i - 1], steps[i - 1], Lookups(states, steps, i - 1);
      if step.Lookup? && step.a in s.threads {
        assert (before + [s.threads[step.a].job.key])[..|before|] == before;
      }
    }
  }

  /** Whoever looks a key up is given the buffer that the pool files it under. */
  lemma LookupGives(c: Config, s: State, s': State, a: Actor)
    requires Inv(c, s) && Next(c, s, s', Lookup(a))
    ensures var k := s.threads[a].job.key;
      k in s'.pool.entries && a in s'.threads && s'.threads[a].stage == Given(s'.pool.entries[k])
  {
    GetKeeps(s.pool, s.threads[a].job.key);
  }

  // ----- who fails, and who is served from a buffer -----

  /** The last steps of `a` were its fill failing, and returning. */
  ghost predicate FailedAt(steps: seq<Step>, i: nat, a: Actor, j: nat, m: nat) {
    j < m < i <= |steps| && steps[j] == FillFails(a) && steps[m] == Finish(a)
    && forall k {:trigger steps[k]} | j < k < i && k != m :: steps[k].a != a
  }

  lemma Failing(c: Config, s: State, s': State, step: Step, a: Actor)
    requires Next(c, s, s', step) && a in s'.threads
    ensures s'.threads[a].stage == Returned(Failed) ==>
      if step.a == a then step == Finish(a) && a in s.threads && s.threads[a].stage.Checked? && !s.threads[a].stage.ok
      else a in s.threads && s.threads[a] == s'.threads[a]
    ensures s'.threads[a].stage.Checked? && !s'.threads[a].stage.ok ==>
      if step.a == a then step == FillFails(a) else a in s.threads && s.threads[a] == s'.threads[a]
  {
  }

  lemma {:induction false} FillFailed(c: Config, bcount: nat, states: seq<State>, steps: seq<Step>, i: nat, a: Actor)
    returns (j: nat)
    requires Run(c, bcount, states, steps) && i < |states| && a in states[i].threads
    requires states[i].threads[a].stage.Checked? && !states[i].threads[a].stage.ok
    ensures j < i && steps[j] == FillFails(a) && forall k {:trigger steps[k]} | j < k < i :: steps[k].a != a
  {
    assert i > 0;
    Failing(c, states[i - 1], states[i], steps[i - 1], a);
    if steps[i - 1].a == a { j := i - 1; } else { j := FillFailed(c, bcount, states, steps, i - 1, a); }
  }

  /** In every run a call fails only because its own fill has just failed. */
  lemma {:induction false} FailuresCaused(c: Config, bcount: nat, states: seq<State>, steps: seq<Step>, i: nat,
      a: Actor)
    returns (j: nat, m: nat)
    requires Run(c, bcount, states, steps) && i < |states| && a in states[i].threads
    requires states[i].threads[a].stage == Returned(Failed)
    ensures FailedAt(steps, i, a, j, m)
  {
    assert i > 0;
    Failing(c, states[i - 1], states[i], steps[i - 1], a);
    if steps[i - 1].a == a {
      m := i - 1;
      j := FillFailed(c, bcount, states, steps, i - 1, a);
    } else {
      j, m := FailuresCaused(c, bcount, states, steps, i - 1, a);
    }
  }

  lemma {:induction false} Waits(c: Config, bcount: nat, states: seq<State>, steps: seq<Step>, i: nat, j: nat, a: Actor)
    requires Run(c, bcount, states, steps) && i <= j <= |steps| && a in states[i].threads
    requires Locked(states[i].threads[a].stage).Some?
    requires forall n {:trigger steps[n]} | i <= n < j :: steps[n].a != a
    ensures a in states[j].threads && states[j].threads[a] == states[i].threads[a]
    ensures var b := Locked(states[i].threads[a].stage).value;
      b in states[i].buffers && b in states[j].buffers && states[j].buffers[b] == states[i].buffers[b]
    decreases j
  {
    RunsAreSafe(c, bcount, states, steps, i);
    assert ThreadOk(c, states[i], a);
    if i < j {
      Waits(c, bcount, states, steps, i, j - 1, a);
      RunsAreSafe(c, bcount, states, steps, j - 1);
      assert steps[j - 1].a != a;
      OthersKeep(c, states[j - 1], states[j], steps[j - 1], a);
    }
  }

  /** The buffer that the thread has locked holds its bytes. */
  ghost predicate HasBytes(c: Config, s: State, a: Actor)
    requires a in s.threads
  {
    var b := Locked(s.threads[a].stage);
    b.Some? && b.value in s.buffers && s.buffers[b.value].key == Some(s.threads[a].job.key)
    && s.buffers[b.value].n == s.threads[a].job.key.len
  }

  lemma HitStep(c: Config, s: State, s': State, step: Step, a: Actor)
    requires Inv(c, s) && Next(c, s, s', step) && step.a == a && a in s.threads && HasBytes(c, s, a)
    requires var job := s.threads[a].job; !job.ahead && job.off < job.key.len
    ensures s.threads[a].stage.Holding? ==>
      step == Keep(a) && a in s'.threads && HasBytes(c, s', a)
      && s'.threads[a].job == s.threads[a].job && s'.threads[a].stage.Checked? && s'.threads[a].stage.ok
    ensures s.threads[a].stage.Checked? && s.threads[a].stage.ok ==>
      var job := s.threads[a].job;
      step == Finish(a) && a in s'.threads
      && s'.threads[a].stage == Returned(Bytes(Copied(c.source(job.key), job.off, job.len)))
  {
    assert ThreadOk(c, s, a);
    var k, buffer := s.threads[a].job.key, s.buffers[Locked(s.threads[a].stage).value];
    if s.threads[a].stage.Checked? && s.threads[a].stage.ok { assert buffer.buf[..buffer.n] == c.source(k); }
  }

  /** In every run, a reader that locks a buffer which holds its slice is answered from it, by its next two steps. */
  lemma HitIsServed(c: Config, bcount: nat, states: seq<State>, steps: seq<Step>, i: nat, m: nat, n: nat, a: Actor)
    requires Run(c, bcount, states, steps) && i <= m < n < |steps| && a in states[i].threads
    requires states[i].threads[a].stage.Holding? && HasBytes(c, states[i], a)
    requires var job := states[i].threads[a].job; !job.ahead && job.off < job.key.len
    requires steps[m].a == a && (forall k {:trigger steps[k]} | i <= k < m :: steps[k].a != a)
    requires steps[n].a == a && (forall k {:trigger steps[k]} | m < k < n :: steps[k].a != a)
    ensures var job := states[i].threads[a].job;
      steps[m] == Keep(a) && steps[n] == Finish(a) && a in states[n + 1].threads
      && states[n + 1].threads[a].stage == Returned(Bytes(Copied(c.source(job.key), job.off, job.len)))
  {
    Waits(c, bcount, states, steps, i, m, a);
    RunsAreSafe(c, bcount, states, steps, m);
    HitStep(c, states[m], states[m + 1], steps[m], a);
    Waits(c, bcount, states, steps, m + 1, n, a);
    RunsAreSafe(c, bcount, states, steps, n);
    HitStep(c, states[n], states[n + 1], steps[n], a);
  }

  // ----- nobody waits for ever -----

  /** The thread that `a` waits for: itself, unless it waits for a lock that another one holds. */
  ghost function WaitsFor(s: State, a: Actor): Actor
    requires a in s.threads
  {
    var Thread(job, stage) := s.threads[a];
    if stage.Given? && stage.b in s.locks && (job.ahead || job.len > 0) then s.locks[stage.b] else a
  }

  lemma HolderGoesOn(c: Config, s: State, a: Actor) returns (step: Step)
    requires Inv(c, s) && a in s.threads && Locked(s.threads[a].stage).Some?
    ensures step.a == a && After(c, s, step).Some? && (step.FillFails? ==> !c.Complete(s.threads[a].job.key))
  {
    assert ThreadOk(c, s, a);
    var Thread(job, stage) := s.threads[a];
    match stage
    case Holding(b) => step := if s.buffers[b].key == Some(job.key) then Keep(a) else Claim(a);
    case Filling(b) => step := if c.Complete(job.key) then FillDone(a, c.source(job.key)) else FillFails(a);
    case Checked(b, _) => step := Finish(a);
  }

  /** Whoever has not returned can go on, or waits for a lock whose holder can. */
  lemma SomeoneGoesOn(c: Config, s: State, a: Actor) returns (step: Step)
    requires Inv(c, s) && a in s.threads && !s.threads[a].stage.Returned?
    ensures step.a == WaitsFor(s, a) && step.a in s.threads && After(c, s, step).Some?
    ensures step.FillFails? ==> !c.Complete(s.threads[step.a].job.key)
  {
    var Thread(job, stage) := s.threads[a];
    match stage
    case Looking => step := Lookup(a);
    case Given(b) =>
      if !job.ahead && job.len == 0 { step := Skip(a); }
      else if b in s.locks { step := HolderGoesOn(c, s, s.locks[b]); }
      else { step := Acquire(a); }
    case _ => step := HolderGoesOn(c, s, a);
  }
}
