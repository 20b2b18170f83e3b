/** The S3 multipart uploader of pkg/s3util/uploader.go for a seekable body read
  from its start: how the body is cut into parts, and the producer/worker protocol
  that uploads them in any completion order. */
module Uploader {
  import opened Prelude

  const MIN_PART_SIZE := 5 * 1024 * 1024
  const S3_MAX_PARTS := 10000

  /** A section of the body. */
  datatype Chunk = Chunk(off: nat, len: nat)

  /** The chunks follow each other from `from` to `to`, none of them empty or above the part size. */
  ghost predicate Tiles(chunks: seq<Chunk>, from: nat, to: nat, partSize: nat)
    decreases |chunks|
  {
    if chunks == [] then from == to
    else
      chunks[0].off == from && 0 < chunks[0].len <= partSize
      && Tiles(chunks[1..], from + chunks[0].len, to, partSize)
  }

  /** The bytes the chunks name, in order. */
  ghost function Gather(body: Bytes, chunks: seq<Chunk>): Bytes {
    if chunks == [] then []
    else (if chunks[0].off + chunks[0].len <= |body| then body[chunks[0].off..chunks[0].off + chunks[0].len] else [])
         + Gather(body, chunks[1..])
  }

  /** Tiling chunks put together give the body back. */
  lemma {:induction false} TilesGather(body: Bytes, chunks: seq<Chunk>, from: nat, partSize: nat)
    requires from <= |body| && Tiles(chunks, from, |body|, partSize)
    ensures Gather(body, chunks) == body[from..]
  {
    if chunks != [] {
      var next := from + chunks[0].len;
      TilesBound(chunks[1..], next, |body|, partSize);
      TilesGather(body, chunks[1..], next, partSize);
      assert body[from..] == body[from..next] + body[next..];
    }
  }

  lemma {:induction false} TilesBound(chunks: seq<Chunk>, from: nat, to: nat, partSize: nat)
    requires Tiles(chunks, from, to, partSize)
    ensures from <= to
  {
    if chunks != [] { TilesBound(chunks[1..], from + chunks[0].len, to, partSize); }
  }

  lemma {:induction false} TilesAppend(chunks: seq<Chunk>, from: nat, to: nat, partSize: nat, n: nat)
    requires Tiles(chunks, from, to, partSize) && 0 < n <= partSize
    ensures Tiles(chunks + [Chunk(to, n)], from, to + n, partSize)
  {
    if chunks == [] {
      assert (chunks + [Chunk(to, n)])[1..] == [];
    } else {
      TilesAppend(chunks[1..], from + chunks[0].len, to, partSize, n);
      assert (chunks + [Chunk(to, n)])[1..] == chunks[1..] + [Chunk(to, n)];
    }
  }

  datatype Plan =
    | ConfigError                 // the part size is below the minimum
    | Single                      // one plain put
    | Multi(chunks: seq<Chunk>)
    | TooMany(chunks: seq<Chunk>) // queued before the part limit was hit

  class Body {
    const totalSize: nat
    const maxParts: nat
    var partSize: nat
    var readerPos: nat

    /** `init` with its defaults applied, then `initSize`. */
    constructor (totalSize: nat, partSize: nat, maxParts: nat)
      requires partSize > 0 && maxParts > 0
      ensures this.totalSize == totalSize && this.maxParts == maxParts && this.readerPos == 0
      ensures this.partSize >= partSize
      // the part size is only raised when the body would need more parts than allowed
      ensures totalSize < partSize * maxParts ==> this.partSize == partSize
      // afterwards the allowed number of parts is enough
      ensures totalSize < this.partSize * maxParts
      // and a raised part size is the least that is
      ensures totalSize >= partSize * maxParts ==> (this.partSize - 1) * maxParts <= totalSize
    {
      this.totalSize, this.maxParts, this.readerPos := totalSize, maxParts, 0;
      var size := partSize;
      QuotientLess(totalSize, partSize, maxParts);
      if totalSize / partSize >= maxParts {
        size := totalSize / maxParts + 1;
        Raised(totalSize, partSize, maxParts);
      }
      this.partSize := size;
    }

    /** `nextReader` for a body that can be read at any offset. */
    method NextReader() returns (chunk: Chunk, eof: bool)
      requires readerPos <= totalSize
      modifies this`readerPos
      ensures chunk.off == old(readerPos) && readerPos == old(readerPos) + chunk.len <= totalSize
      ensures eof <==> readerPos == totalSize
      ensures chunk.len == if totalSize - old(readerPos) <= partSize then totalSize - old(readerPos) else partSize
      ensures old(readerPos) < totalSize && partSize > 0 ==> 0 < chunk.len <= partSize
    {
      var n := partSize;
      var bytesLeft := totalSize - readerPos;
      eof := false;
      if bytesLeft <= partSize {
        eof := true;
        n := bytesLeft;
      }
      chunk := Chunk(readerPos, n);
      readerPos := readerPos + n;
    }

    /** The loop of `multiuploader.upload`: read on until the end or the part limit. */
    method ReadParts(first: Chunk, limit: nat) returns (chunks: seq<Chunk>, exceeded: bool)
      requires first == Chunk(0, partSize) && readerPos == partSize < totalSize && partSize > 0
      requires 0 < limit && totalSize <= Span(maxParts, partSize)
      modifies this`readerPos
      ensures exceeded <==> totalSize > Span(limit, partSize)
      ensures !exceeded ==> Tiles(chunks, 0, totalSize, partSize) && 2 <= |chunks| <= maxParts
    {
      chunks := [first];
      var num := 1;
      var eof := false;
      while !eof
        invariant num == |chunks| >= 1 && num <= maxParts && num <= limit
        invariant Tiles(chunks, 0, readerPos, partSize) && readerPos <= totalSize
        invariant eof <==> readerPos == totalSize
        invariant !eof ==> readerPos == Span(num, partSize)
        invariant eof ==> num >= 2 && totalSize <= Span(num, partSize)
        decreases totalSize - readerPos
      {
        num := num + 1;
        if num > maxParts || num > limit {
          SpanMono(maxParts, num - 1, partSize);
          return chunks, true;
        }
        var chunk;
        chunk, eof := NextReader();
        TilesAppend(chunks, 0, chunk.off, partSize, chunk.len);
        chunks := chunks + [chunk];
      }
      SpanMono(num, limit, partSize);
      return chunks, false;
    }

    /** The first read decides between one put and several parts. */
    method Split() returns (plan: Plan)
      requires readerPos == 0 && partSize > 0 && maxParts > 0 && totalSize <= partSize * maxParts
      modifies this`readerPos
      ensures plan.ConfigError? <==> partSize < 0x50_0000 // 5 MiB
      ensures plan.Single? <==> partSize >= 0x50_0000 && totalSize <= partSize
      // the parts cover the body exactly and never exceed the configured maximum
      ensures plan.Multi? ==> Tiles(plan.chunks, 0, totalSize, partSize) && 2 <= |plan.chunks| <= maxParts
      // only the fixed S3 limit can be hit
      ensures plan.TooMany? <==> partSize >= 0x50_0000 && totalSize > 10_000 * partSize
    {
      if partSize < MIN_PART_SIZE {
        return ConfigError;
      }
      var first, eof := NextReader();
      if eof {
        return Single;
      }
      SpanIs(maxParts, partSize);
      var limit: nat :| limit == S3_MAX_PARTS;
      SpanIs(limit, partSize);
      SpanMono(1, maxParts, partSize);
      var chunks, exceeded := ReadParts(first, limit);
      plan := if exceeded then TooMany(chunks) else Multi(chunks);
    }
  }

  /** The length of `n` full parts. */
  ghost function Span(n: nat, partSize: nat): nat {
    if n == 0 then 0 else Span(n - 1, partSize) + partSize
  }

  lemma {:induction false} SpanIs(n: nat, p: nat)
    ensures Span(n, p) == n * p
  {
    if n > 0 { SpanIs(n - 1, p); }
  }

  lemma {:induction false} SpanMono(a: nat, b: nat, p: nat)
    requires p > 0
    ensures a <= b ==> Span(a, p) <= Span(b, p)
    ensures a < b ==> Span(a, p) < Span(b, p)
  {
    if a < b { SpanMono(a, b - 1, p); }
  }

  lemma MulMono(a: nat, b: nat, p: nat)
    requires p > 0
    ensures a <= b ==> a * p <= b * p
    ensures a < b ==> a * p < b * p
  {
    if a <= b { assert b * p == a * p + (b - a) * p; }
  }

  lemma QuotientLess(total: nat, p: nat, m: nat)
    requires p > 0 && m > 0
    ensures total / p >= m <==> total >= p * m
  {
    var q := total / p;
    assert q * p <= total < q * p + p;
    if q >= m { MulMono(m, q, p); } else { MulMono(q + 1, m, p); }
  }

  lemma Raised(total: nat, p: nat, m: nat)
    requires p > 0 && m > 0 && total >= p * m
    ensures p <= total / m + 1 && total < (total / m + 1) * m && total / m * m <= total
  {
    var q := total / m;
    assert q * m <= total < q * m + m;
    if p > q + 1 { MulMono(q + 1, p, m); }
  }

  // ----- the producer and its workers -----

  /** `parts` chunks will be read; `exceeded` says that the part limit is hit after them. */
  datatype Config = Config(parts: nat, exceeded: bool, capacity: nat, workers: set<nat>)

  datatype Worker =
    | Idle
    | Took(num: nat)    // received from the channel, error not checked yet
    | Sending(num: nat)
    | Gone

  datatype Producer =
    | Checking          // at the top of the loop
    | Blocked(num: nat) // has a chunk for the channel
    | Closed

  datatype Verdict = Running | Failed | Completed(list: seq<nat>)

  datatype State = State(
    producer: Producer, queued: nat, channel: seq<nat>, workers: map<nat, Worker>,
    parts: seq<nat>, err: bool, verdict: Verdict)

  ghost predicate Init(c: Config, s: State) {
    && c.parts > 0
    && s == State(Blocked(1), 0, [], map w | w in c.workers :: Idle, [], false, Running)
  }

  datatype Step =
    | Push
    | Check
    | Receive(w: nat)
    | Inspect(w: nat)
    | Sent(w: nat)
    | SendFails(w: nat)
    | Leave(w: nat)
    | Complete(list: seq<nat>)
    | CompleteFails

  /** What sort.Sort leaves: the same part numbers, in order. */
  ghost predicate SortedOf(list: seq<nat>, parts: seq<nat>) {
    multiset(list) == multiset(parts) && forall i, j | 0 <= i < j < |list| :: list[i] <= list[j]
  }

  ghost predicate Next(c: Config, s: State, s': State, step: Step) {
    After(c, s, step) == Some(s')
  }

  ghost function After(c: Config, s: State, step: Step): Option<State> {
    match step
    case Push =>
      if !s.producer.Blocked? || |s.channel| >= c.capacity then None
      else Some(s.(producer := Checking, queued := s.producer.num, channel := s.channel + [s.producer.num]))
    case Check =>
      if !s.producer.Checking? then None
      else if s.err || (s.queued == c.parts && !c.exceeded) then Some(s.(producer := Closed))
      else if s.queued >= c.parts then Some(s.(producer := Closed, err := true))
      else Some(s.(producer := Blocked(s.queued + 1)))
    case Complete(list) =>
      if !Stopped(s) || s.err || !SortedOf(list, s.parts) then None else Some(s.(verdict := Completed(list)))
    case CompleteFails =>
      if !Stopped(s) then None else Some(s.(verdict := Failed, err := true))
    case _ => if step.w !in s.workers then None else WorkerStep(s, step, step.w, s.workers[step.w])
  }

  ghost predicate Stopped(s: State) {
    s.producer.Closed? && s.verdict.Running? && forall w | w in s.workers :: s.workers[w] == Gone
  }

  ghost function WorkerStep(s: State, step: Step, w: nat, worker: Worker): Option<State> {
    match (step, worker)
    case (Receive(_), Idle) =>
      if s.channel == [] then None
      else Some(s.(channel := s.channel[1..], workers := s.workers[w := Took(s.channel[0])]))
    case (Inspect(_), Took(num)) => Some(s.(workers := s.workers[w := if s.err then Idle else Sending(num)]))
    case (Sent(_), Sending(num)) => Some(s.(workers := s.workers[w := Idle], parts := s.parts + [num]))
    case (SendFails(_), Sending(_)) => Some(s.(workers := s.workers[w := Idle], err := true))
    case (Leave(_), Idle) =>
      if s.channel == [] && s.producer.Closed? then Some(s.(workers := s.workers[w := Gone])) else None
    case _ => None
  }

  /** An upload that succeeds lists parts 1 to k in order, k being all of them. */
  ghost predicate Safe(c: Config, s: State) {
    s.verdict.Completed? ==> !c.exceeded && s.verdict.list == seq(c.parts, i => i + 1)
  }

  // ----- the inductive invariant -----

  ghost function InHand(worker: Worker): Option<nat> {
    match worker
    case Took(num) => Some(num)
    case Sending(num) => Some(num)
    case _ => None
  }

  /** How many numbers have left the channel. */
  ghost function Taken(s: State): int { s.queued - |s.channel| }

  /** A taken part is uploaded or in one worker's hands, unless something failed. */
  ghost predicate PartOk(s: State, num: nat) {
    1 <= num <= Taken(s) && !s.err ==> num in s.parts || exists w | w in s.workers :: InHand(s.workers[w]) == Some(num)
  }

  ghost predicate HandOk(s: State, w: nat) {
    w in s.workers && InHand(s.workers[w]).Some? ==>
      1 <= InHand(s.workers[w]).value <= Taken(s) && InHand(s.workers[w]).value !in s.parts
  }

  ghost predicate HandsApart(s: State, w: nat, x: nat) {
    w in s.workers && x in s.workers && w != x && InHand(s.workers[w]).Some? ==>
      InHand(s.workers[w]) != InHand(s.workers[x])
  }

  ghost predicate Queue(c: Config, s: State) {
    && |s.channel| <= s.queued <= c.parts && |s.channel| <= c.capacity
    && (forall i: nat | i < |s.channel| :: s.channel[i] == Taken(s) + 1 + i)
    && (s.producer.Blocked? ==> s.producer.num == s.queued + 1 <= c.parts)
    && (s.producer.Closed? && !s.err ==> s.queued == c.parts && !c.exceeded)
    && ((exists w | w in s.workers :: s.workers[w] == Gone) ==> s.channel == [] && s.producer.Closed?)
  }

  ghost predicate Inv(c: Config, s: State) {
    && Queue(c, s) && s.workers.Keys == c.workers
    && (forall i: nat, j: nat {:trigger s.parts[i], s.parts[j]} | i < j < |s.parts| :: s.parts[i] != s.parts[j])
    && (forall p | p in s.parts :: 1 <= p <= Taken(s))
    && (forall num: nat {:trigger PartOk(s, num)} :: PartOk(s, num))
    && (forall w: nat {:trigger HandOk(s, w)} :: HandOk(s, w))
    && (forall w: nat, x: nat {:trigger HandsApart(s, w, x)} :: HandsApart(s, w, x))
    && (s.verdict.Completed? ==> Safe(c, s))
  }

  lemma QueueKeeps(c: Config, s: State, s': State, step: Step)
    requires Inv(c, s) && Next(c, s, s', step)
    ensures Queue(c, s') && s'.workers.Keys == c.workers
  {
    if step.Leave? || step.Receive? || step.Inspect? || step.Sent? || step.SendFails? {
      assert s'.workers.Keys == s.workers.Keys;
    }
  }

  lemma PartsKeep(c: Config, s: State, s': State, step: Step)
    requires Inv(c, s) && Next(c, s, s', step)
    ensures forall i: nat, j: nat {:trigger s'.parts[i], s'.parts[j]} | i < j < |s'.parts| :: s'.parts[i] != s'.parts[j]
    ensures forall p | p in s'.parts :: 1 <= p <= Taken(s')
  {
    if step.Sent? { assert HandOk(s, step.w); }
  }

  lemma PartKeeps(c: Config, s: State, s': State, step: Step, num: nat)
    requires Inv(c, s) && Next(c, s, s', step)
    ensures PartOk(s', num)
  {
    assert PartOk(s, num);
    if 1 <= num <= Taken(s) && !s.err && num !in s.parts {
      var w :| w in s.workers && InHand(s.workers[w]) == Some(num);
      assert step.Sent? && w == step.w ==> num in s'.parts;
      assert !(step.Sent? && w == step.w) && !s'.err ==> w in s'.workers && InHand(s'.workers[w]) == Some(num);
    }
    if step.Receive? && num == s.channel[0] { assert InHand(s'.workers[step.w]) == Some(num); }
  }

  lemma HandKeeps(c: Config, s: State, s': State, step: Step, w: nat, x: nat)
    requires Inv(c, s) && Next(c, s, s', step)
    ensures HandOk(s', w) && HandsApart(s', w, x)
  {
    assert HandOk(s, w) && HandOk(s, x) && HandsApart(s, w, x) && HandsApart(s, x, w);
    if step.Sent? { assert HandsApart(s, w, step.w); }
    if step.Receive? { assert s.channel[0] == Taken(s) + 1; }
  }

  /** The list handed to S3 is exactly 1 to k. */
  lemma CompletedOk(c: Config, s: State, list: seq<nat>)
    requires Inv(c, s) && Stopped(s) && !s.err && c.workers != {} && SortedOf(list, s.parts)
    ensures !c.exceeded && list == seq(c.parts, i => i + 1)
  {
    var w :| w in s.workers;
    assert s.workers[w] == Gone;
    assert s.queued == c.parts && Taken(s) == c.parts;
    forall num: nat ensures num in list <==> 1 <= num <= c.parts {
      assert num in list <==> num in multiset(list);
      assert num in s.parts <==> num in multiset(s.parts);
      assert PartOk(s, num);
    }
    DistinctMultiset(s.parts);
    forall i: nat, j: nat | i < j < |list| ensures list[i] < list[j] {
      if list[i] == list[j] { TwiceCounted(list, i, j); }
    }
    Counting(list, c.parts);
  }

  lemma {:induction false} DistinctMultiset(parts: seq<nat>)
    requires forall i: nat, j: nat {:trigger parts[i], parts[j]} | i < j < |parts| :: parts[i] != parts[j]
    ensures forall x :: multiset(parts)[x] <= 1
  {
    if parts != [] {
      var rest := parts[..|parts| - 1];
      DistinctMultiset(rest);
      assert parts == rest + [parts[|parts| - 1]];
    }
  }

  lemma TwiceCounted(list: seq<nat>, i: nat, j: nat)
    requires i < j < |list| && list[i] == list[j]
    ensures multiset(list)[list[i]] >= 2
  {
    assert list == list[..j] + [list[j]] + list[j + 1..];
    assert list[..j][i] == list[i];
  }

  lemma HeadIn(list: seq<nat>)
    ensures list != [] ==> list[0] in list
  {
  }

  /** A strictly increasing sequence of exactly the numbers 1 to k is 1, 2, ..., k. */
  lemma {:induction false} Counting(list: seq<nat>, k: nat)
    requires forall i: nat, j: nat | i < j < |list| :: list[i] < list[j]
    requires forall num: nat :: num in list <==> 1 <= num <= k
    ensures list == seq(k, i => i + 1)
  {
    HeadIn(list);
    if k > 0 {
      assert k in list;
      var at :| 0 <= at < |list| && list[at] == k;
      var last := |list| - 1;
      assert list[last] in list;
      assert at == last;
      var rest := list[..last];
      forall num: nat ensures num in rest <==> 1 <= num <= k - 1 {
        if num in list && num != k {
          var i :| 0 <= i < |list| && list[i] == num;
          assert rest[i] == num;
        }
        if num in rest {
          var i :| 0 <= i < |rest| && rest[i] == num;
          assert list[i] < list[last] && list[i] in list;
        }
      }
      Counting(rest, k - 1);
      assert list == rest + [k];
    }
  }

  lemma StepKeepsInv(c: Config, s: State, s': State, step: Step)
    requires Inv(c, s) && Next(c, s, s', step) && c.workers != {}
    ensures Inv(c, s')
  {
    QueueKeeps(c, s, s', step);
    PartsKeep(c, s, s', step);
    forall num: nat {:trigger PartOk(s', num)} ensures PartOk(s', num) { PartKeeps(c, s, s', step, num); }
    forall w: nat, x: nat {:trigger HandsApart(s', w, x)} ensures HandsApart(s', w, x) {
      HandKeeps(c, s, s', step, w, x);
    }
    forall w: nat {:trigger HandOk(s', w)} ensures HandOk(s', w) { HandKeeps(c, s, s', step, w, w); }
    if step.Complete? { CompletedOk(c, s, step.list); }
  }

  ghost predicate Run(c: Config, states: seq<State>, steps: seq<Step>) {
    && |states| == |steps| + 1 && Init(c, states[0])
    && forall i {:trigger steps[i]} | 0 <= i < |steps| :: Next(c, states[i], states[i + 1], steps[i])
  }

  /** Whatever order the workers finish in, a successful upload names every part once, in order. */
  lemma {:induction false} RunsAreSafe(c: Config, states: seq<State>, steps: seq<Step>, i: nat)
    requires Run(c, states, steps) && c.workers != {} && i < |states|
    ensures Inv(c, states[i]) && Safe(c, states[i])
  {
    if i > 0 {
      RunsAreSafe(c, states, steps, i - 1);
      StepKeepsInv(c, states[i - 1], states[i], steps[i - 1]);
    }
  }

  /** What S3 assembles: the listed parts, in list order. */
  ghost function Assembled(body: Bytes, chunks: seq<Chunk>, list: seq<nat>): Bytes
    requires forall j | 0 <= j < |list| :: 1 <= list[j] <= |chunks|
  {
    if list == [] then [] else Gather(body, [chunks[list[0] - 1]]) + Assembled(body, chunks, list[1..])
  }

  /** The part numbers after `k`. */
  function PartsAfter(k: nat, n: nat): (r: seq<nat>)
    requires k <= n
    ensures |r| == n - k && forall j | 0 <= j < |r| :: k < r[j] <= n
  {
    seq(n - k, (i: nat) => k + i + 1)
  }

  lemma PartsCons(k: nat, n: nat)
    requires k < n
    ensures PartsAfter(k, n)[0] == k + 1 && PartsAfter(k, n)[1..] == PartsAfter(k + 1, n)
  {
  }

  lemma GatherCons(body: Bytes, chunks: seq<Chunk>, k: nat)
    requires k < |chunks|
    ensures Gather(body, chunks[k..]) == Gather(body, [chunks[k]]) + Gather(body, chunks[k + 1..])
  {
    assert chunks[k..][1..] == chunks[k + 1..] && [chunks[k]][1..] == [];
  }

  lemma {:induction false} AssembledIs(body: Bytes, chunks: seq<Chunk>, k: nat)
    requires k <= |chunks|
    ensures Assembled(body, chunks, PartsAfter(k, |chunks|)) == Gather(body, chunks[k..])
    decreases |chunks| - k
  {
    if k < |chunks| {
      AssembledIs(body, chunks, k + 1);
      PartsCons(k, |chunks|);
      GatherCons(body, chunks, k);
    }
  }

  /** A successful multipart upload of a tiled body assembles to that body. */
  lemma UploadedIsBody(c: Config, body: Bytes, chunks: seq<Chunk>, partSize: nat, states: seq<State>, steps: seq<Step>,
      i: nat)
    requires Run(c, states, steps) && c.workers != {} && i < |states| && states[i].verdict.Completed?
    requires c.parts == |chunks| && Tiles(chunks, 0, |body|, partSize)
    ensures var list := states[i].verdict.list;
      (forall j | 0 <= j < |list| :: 1 <= list[j] <= |chunks|) && Assembled(body, chunks, list) == body
  {
    RunsAreSafe(c, states, steps, i);
    AssembledIs(body, chunks, 0);
    TilesGather(body, chunks, 0, partSize);
    assert chunks[0..] == chunks && body[0..] == body;
    assert states[i].verdict.list == PartsAfter(0, |chunks|);
  }

  // ----- why an upload fails -----

  ghost predicate Fault(step: Step) { step.SendFails? || step.CompleteFails? }

  ghost predicate FaultBefore(steps: seq<Step>, n: nat)
    requires n <= |steps|
  {
    exists j :: 0 <= j < n && Fault(steps[j])
  }

  lemma FaultSoFar(steps: seq<Step>, n: nat)
    requires n < |steps| && (FaultBefore(steps, n) || Fault(steps[n]))
    ensures FaultBefore(steps, n + 1)
  {
    if FaultBefore(steps, n) {
      var j :| 0 <= j < n && Fault(steps[j]);
    }
  }

  /** In every run, an error is only there because there are too many parts, a part could not be sent, or S3 refused
    the list. */
  lemma {:induction false} FailuresCaused(c: Config, states: seq<State>, steps: seq<Step>, i: nat)
    requires Run(c, states, steps) && c.workers != {} && i < |states|
    ensures states[i].err || states[i].verdict.Failed? ==> c.exceeded || FaultBefore(steps, i)
  {
    if i > 0 {
      FailuresCaused(c, states, steps, i - 1);
      RunsAreSafe(c, states, steps, i - 1);
      if FaultBefore(steps, i - 1) || Fault(steps[i - 1]) {
        FaultSoFar(steps, i - 1);
      } else {
        NewError(c, states[i - 1], states[i], steps[i - 1]);
      }
    }
  }

  lemma NewError(c: Config, s: State, s': State, step: Step)
    requires Inv(c, s) && Next(c, s, s', step) && !Fault(step)
    ensures s'.err ==> s.err || c.exceeded
    ensures s'.verdict.Failed? ==> s.verdict.Failed?
  {
  }

  /** What was read from the body, with the part that waits for room in the channel. */
  ghost function Read(s: State): nat { s.queued + if s.producer.Blocked? then 1 else 0 }

  ghost predicate SendingAlready(s: State, s': State) {
    forall w | w in s'.workers && s'.workers[w].Sending? :: w in s.workers && s.workers[w] == s'.workers[w]
  }

  /** After an error, no further part is read from the body, and no further part is sent. */
  lemma {:induction false} ErrorStops(c: Config, states: seq<State>, steps: seq<Step>, i: nat, k: nat)
    requires Run(c, states, steps) && c.workers != {} && i <= k < |states| && states[i].err
    ensures states[k].err && Read(states[k]) <= Read(states[i]) && SendingAlready(states[i], states[k])
    decreases k
  {
    if i < k {
      ErrorStops(c, states, steps, i, k - 1);
      RunsAreSafe(c, states, steps, k - 1);
      StopsOne(c, states[k - 1], states[k], steps[k - 1]);
    }
  }

  lemma StopsOne(c: Config, s: State, s': State, step: Step)
    requires Inv(c, s) && Next(c, s, s', step) && s.err
    ensures s'.err && Read(s') <= Read(s) && SendingAlready(s, s')
  {
  }

  // ----- every upload ends -----

  ghost function WorkerWork(worker: Worker): nat {
    match worker
    case Idle => 1
    case Took(_) => 4
    case Sending(_) => 3
    case Gone => 0
  }

  /** How many steps of the producer may be left, with what it hands on. */
  ghost function ProducerWork(c: Config, s: State): int {
    match s.producer
    case Checking => 6 * (c.parts - s.queued) + 1
    case Blocked(_) => 6 * (c.parts - s.queued)
    case Closed => 0
  }

  ghost function Work(c: Config, s: State): int {
    ProducerWork(c, s) + 4 * |s.channel| + MapSum(s.workers, WorkerWork) + if s.verdict.Running? then 1 else 0
  }

  lemma StepWorks(c: Config, s: State, s': State, step: Step)
    requires Inv(c, s) && Next(c, s, s', step)
    ensures Work(c, s') < Work(c, s)
  {
    match step
    case Push =>
    case Check =>
    case Complete(_) =>
    case CompleteFails =>
    case _ => MapSumSet(s.workers, WorkerWork, step.w, s'.workers[step.w]);
  }

  lemma {:induction false} WorkGoesDown(c: Config, states: seq<State>, steps: seq<Step>, i: nat)
    requires Run(c, states, steps) && c.workers != {} && i < |states|
    ensures 0 <= Work(c, states[i]) <= Work(c, states[0]) - i
  {
    RunsAreSafe(c, states, steps, i);
    if i > 0 {
      WorkGoesDown(c, states, steps, i - 1);
      RunsAreSafe(c, states, steps, i - 1);
      StepWorks(c, states[i - 1], states[i], steps[i - 1]);
    }
  }

  /** As long as there is no verdict, somebody can go on, and not only by failing. */
  lemma SomeoneGoesOn(c: Config, s: State) returns (step: Step)
    requires Inv(c, s) && c.workers != {} && c.capacity > 0 && s.verdict.Running?
    ensures After(c, s, step).Some? && (Fault(step) ==> s.err)
  {
    if w :| w in s.workers && s.workers[w] != Gone && (!s.workers[w].Idle? || s.channel != []) {
      step := WorkerGoesOn(c, s, w);
    } else if s.producer.Checking? {
      step := Check;
    } else if s.producer.Blocked? {
      var w :| w in s.workers;
      step := Push;
    } else if w :| w in s.workers && s.workers[w] == Idle {
      step := Leave(w);
    } else if s.err {
      step := CompleteFails;
    } else {
      AllSent(c, s);
      step := Complete(seq(c.parts, i => i + 1));
    }
  }

  lemma WorkerGoesOn(c: Config, s: State, w: nat) returns (step: Step)
    requires w in s.workers && s.workers[w] != Gone && (!s.workers[w].Idle? || s.channel != [])
    ensures After(c, s, step).Some? && !Fault(step)
  {
    match s.workers[w]
    case Idle => step := Receive(w);
    case Took(_) => step := Inspect(w);
    case Sending(_) => step := Sent(w);
  }

  /** At the end all part numbers are there, so that sorting them gives 1 to k. */
  lemma AllSent(c: Config, s: State)
    requires Inv(c, s) && c.workers != {} && Stopped(s) && !s.err
    ensures SortedOf(seq(c.parts, i => i + 1), s.parts)
  {
    var w :| w in s.workers;
    assert s.workers[w] == Gone;
    var list: seq<nat> := seq(c.parts, i => i + 1);
    DistinctMultiset(list);
    DistinctMultiset(s.parts);
    forall num: nat ensures multiset(list)[num] == multiset(s.parts)[num] {
      assert PartOk(s, num);
      assert num in list <==> 1 <= num <= c.parts by {
        if 1 <= num <= c.parts { assert list[num - 1] == num; }
      }
      assert num in list <==> num in multiset(list);
      assert num in s.parts <==> num in multiset(s.parts);
    }
    assert multiset(list) == multiset(s.parts);
  }

  /** Every upload ends: no run is longer than its start allows. One that has come to its end, with nothing failing on
    the way and no more parts than allowed, has sent all parts and completed. */
  lemma UploadCompletes(c: Config, states: seq<State>, steps: seq<Step>)
    requires Run(c, states, steps) && c.workers != {} && c.capacity > 0
    ensures |steps| <= 6 * c.parts + |c.workers| + 1
    ensures var end := states[|steps|];
      !c.exceeded && !FaultBefore(steps, |steps|) && (forall step | !Fault(step) :: After(c, end, step) == None) ==>
        end.verdict == Completed(seq(c.parts, i => i + 1))
  {
    WorkGoesDown(c, states, steps, |steps|);
    AllIdle(states[0].workers);
    assert states[0].workers.Keys == c.workers;
    var end := states[|steps|];
    RunsAreSafe(c, states, steps, |steps|);
    FailuresCaused(c, states, steps, |steps|);
    if end.verdict.Running? {
      var step := SomeoneGoesOn(c, end);
    }
  }

  lemma {:induction false} AllIdle(workers: map<nat, Worker>)
    requires forall w | w in workers :: workers[w] == Idle
    ensures MapSum(workers, WorkerWork) == |workers.Keys|
  {
    if w :| w in workers {
      AllIdle(workers - {w});
      MapSumAny(workers, WorkerWork, w);
      assert (workers - {w}).Keys == workers.Keys - {w};
    }
  }
}
