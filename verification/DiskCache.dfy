/** The disk cache of pkg/caching/disk.go as a step system: readers, read-aheads,
  write-backs and garbage collectors of any number of processes share one cache
  directory and interleave at every file-system call.

  The cache path is an arbitrary function of the key, so different keys may
  collide on one path. A lock is held on the inode of a lock file, so it only
  excludes if the lock file keeps its name; that is why the collector must skip
  lock files. Buffers come from a shared pool and are reused. */
module DiskCache {
  import opened Prelude

  type Path = string
  type Actor = nat
  type Inode = nat
  type Buf = nat

  /** diskKey: a slice of an object. */
  type Key = SliceKey

  /** A file with its `user.vdisc-cache-key` attribute. */
  datatype File = File(key: Key, data: Bytes)

  datatype Config = Config(path: Key -> Path, source: Key -> Bytes) {
    /** The source holds all the bytes a key names; a shorter one makes the fill fail. */
    ghost predicate Complete(k: Key) { |source(k)| == k.len }

    ghost predicate FileOk(f: File) { f.data == source(f.key) }
  }

  /** A call of ReadAt, or of ReadAhead when `ahead`. */
  datatype Job = Job(key: Key, ahead: bool, off: nat, len: nat) {
    ghost predicate Valid() { !ahead ==> len > 0 && off <= key.len }
  }

  datatype Outcome = Bytes(bytes: Bytes) | Failed

  datatype Stage =
    | Opening                                  // about to open the cache file
    | Opened(file: File)                       // an open handle outlives its name
    | OpeningLock
    | WaitingLock(ino: Inode)
    | Locked(ino: Inode)                       // about to check the cache again
    | Rechecked(ino: Inode, found: Option<File>)
    | Filled(ino: Inode, buf: Buf)             // source bytes read into the buffer
    | Returned(outcome: Outcome)
    | Writing(ino: Inode, buf: Buf, tmp: Bytes) // write-back into a temporary file
    | Tagged(ino: Inode, buf: Buf, tmp: Bytes, key: Key)
    | Unlocking(ino: Inode, buf: Buf)          // committed or aborted

  datatype Thread = Thread(job: Job, stage: Stage)

  datatype Name = CacheName(path: Path) | LockName(path: Path) | TmpName(actor: Actor)

  datatype State = State(
    cache: map<Path, File>,
    lockFiles: map<Path, Inode>,
    holder: map<Inode, Actor>,
    memory: map<Buf, Bytes>,
    pool: set<Buf>,
    threads: map<Actor, Thread>)

  ghost predicate Init(s: State) {
    s == State(map[], map[], map[], map[], {}, map[])
  }

  datatype Step =
    | Start(a: Actor, job: Job)
    | Open(a: Actor)
    | OpenFails(a: Actor)
    | Compare(a: Actor)
    | OpenLock(a: Actor, ino: Inode)
    | Lock(a: Actor)
    | LockFails(a: Actor)
    | Recheck(a: Actor)
    | LostRace(a: Actor)
    | FillFails(a: Actor)
    | ReadSource(a: Actor, buf: Buf, content: Bytes)
    | Deliver(a: Actor, writer: Actor)
    | WriteSome(a: Actor, count: nat)
    | Tag(a: Actor)
    | Commit(a: Actor)
    | Abort(a: Actor)
    | Unlock(a: Actor)
    | Collect(victim: Name)
    | Discard(buf: Buf)                // the pool lets a buffer go, for one when the source could not be read into it
    | Crash(a: Actor)

  /** A step of nobody's call. */
  ghost predicate Outside(step: Step) { step.Collect? || step.Discard? }

  /** The lock this stage holds. */
  ghost function Held(stage: Stage): Option<Inode> {
    match stage
    case Locked(i) => Some(i)
    case Rechecked(i, _) => Some(i)
    case Filled(i, _) => Some(i)
    case Writing(i, _, _) => Some(i)
    case Tagged(i, _, _, _) => Some(i)
    case Unlocking(i, _) => Some(i)
    case _ => None
  }

  /** The buffer this stage uses. */
  ghost function Used(stage: Stage): Option<Buf> {
    match stage
    case Filled(_, b) => Some(b)
    case Writing(_, b, _) => Some(b)
    case Tagged(_, b, _, _) => Some(b)
    case Unlocking(_, b) => Some(b)
    case _ => None
  }

  ghost function Goto(s: State, a: Actor, stage: Stage): State
    requires a in s.threads
  {
    s.(threads := s.threads[a := s.threads[a].(stage := stage)])
  }

  ghost function Release(s: State, ino: Inode): State {
    s.(holder := s.holder - {ino})
  }

  /** The names `diskIter.Next` offers to the collector. */
  ghost predicate Victim(name: Name) { name.CacheName? }

  ghost function Unlink(s: State, name: Name): State {
    match name
    case CacheName(p) => s.(cache := s.cache - {p})
    case LockName(p) => s.(lockFiles := s.lockFiles - {p})
    case TmpName(_) => s
  }

  /** The bytes from `from` to `to` of a pooled buffer. */
  ghost function Load(s: State, b: Buf, from: nat, to: nat): Bytes {
    if b in s.memory && from <= to <= |s.memory[b]| then s.memory[b][from..to] else []
  }

  /** After the reader's part of `fill`: bytes, or another round when there were none. */
  ghost function AfterFill(job: Job, data: Bytes): Stage {
    if job.ahead then Returned(Bytes([]))
    else var p := Copied(data, job.off, job.len); if |p| > 0 then Returned(Bytes(p)) else Opening
  }

  /** `step` is possible in `s` and leads to `s'`. */
  ghost predicate Next(c: Config, s: State, s': State, step: Step) {
    After(c, s, step) == Some(s')
  }

  ghost function After(c: Config, s: State, step: Step): Option<State> {
    match step
    case Start(a, job) =>
      if a in s.threads || !job.Valid() then None
      else Some(s.(threads := s.threads[a := Thread(job, if job.ahead then OpeningLock else Opening)]))
    case Collect(victim) => if Victim(victim) then Some(Unlink(s, victim)) else None
    case Discard(b) =>
      if b !in s.pool then None else Some(s.(pool := s.pool - {b}, memory := s.memory - {b}))
    case _ =>
      if step.a !in s.threads then None else Move(c, s, step, s.threads[step.a].job, s.threads[step.a].stage)
  }

  ghost function Move(c: Config, s: State, step: Step, job: Job, stage: Stage): Option<State>
    requires !Outside(step) && step.a in s.threads
  {
    var a := step.a;
    var path := c.path(job.key);
    match (step, stage)
    case (Open(_), Opening) => Some(Goto(s, a, if path in s.cache then Opened(s.cache[path]) else OpeningLock))
    case (OpenFails(_), Opening) => Some(Goto(s, a, OpeningLock))
    case (Compare(_), Opened(file)) =>
      Some(Goto(s, a,
        if file.key == job.key then Returned(Bytes(Copied(file.data, job.off, job.len))) else OpeningLock))
    case (OpenLock(_, ino), OpeningLock) =>
      if path in s.lockFiles then Some(Goto(s, a, WaitingLock(s.lockFiles[path])))
      else if ino in s.lockFiles.Values || ino in s.holder then None
      else Some(Goto(s, a, WaitingLock(ino)).(lockFiles := s.lockFiles[path := ino]))
    case (Lock(_), WaitingLock(ino)) =>
      if ino in s.holder then None else Some(Goto(s, a, Locked(ino)).(holder := s.holder[ino := a]))
    case (LockFails(_), OpeningLock) => Some(Goto(s, a, Returned(Failed)))
    case (LockFails(_), WaitingLock(_)) => Some(Goto(s, a, Returned(Failed)))
    case (Recheck(_), Locked(ino)) =>
      Some(Goto(s, a, Rechecked(ino, if path in s.cache then Some(s.cache[path]) else None)))
    case (LostRace(_), Rechecked(ino, Some(file))) =>
      if file.key != job.key then None
      else Some(Release(Goto(s, a, if job.ahead then Returned(Bytes([])) else Opening), ino))
    case (FillFails(_), Locked(ino)) => Some(Release(Goto(s, a, Returned(Failed)), ino))
    case (FillFails(_), Rechecked(ino, _)) => Some(Release(Goto(s, a, Returned(Failed)), ino))
    case (ReadSource(_, b, content), Rechecked(ino, found)) =>
      if (found.Some? && found.value.key == job.key) || (b in s.memory && b !in s.pool)
        || !c.Complete(job.key) || !(c.source(job.key) <= content) then None
      else Some(Goto(s, a, Filled(ino, b)).(memory := s.memory[b := content], pool := s.pool - {b}))
    case (Deliver(_, w), Filled(ino, b)) =>
      if w in s.threads then None
      else Some(s.(threads := s.threads[a := Thread(job, AfterFill(job, Load(s, b, 0, job.key.len)))]
                                       [w := Thread(job, Writing(ino, b, []))],
                   holder := s.holder[ino := w]))
    case (WriteSome(_, n), Writing(ino, b, tmp)) =>
      if |tmp| + n > job.key.len then None else Some(Goto(s, a, Writing(ino, b, tmp + Load(s, b, |tmp|, |tmp| + n))))
    case (Tag(_), Writing(ino, b, tmp)) =>
      if |tmp| != job.key.len then None else Some(Goto(s, a, Tagged(ino, b, tmp, job.key)))
    case (Commit(_), Tagged(ino, b, tmp, key)) =>
      Some(Goto(s, a, Unlocking(ino, b)).(cache := s.cache[path := File(key, tmp)]))
    case (Abort(_), Writing(ino, b, _)) => Some(Goto(s, a, Unlocking(ino, b)))
    case (Abort(_), Tagged(ino, b, _, _)) => Some(Goto(s, a, Unlocking(ino, b)))
    case (Unlock(_), Unlocking(ino, b)) =>
      Some(Release(s.(threads := s.threads - {a}, pool := s.pool + {b}), ino))
    case (Crash(_), _) =>
      var s1 := s.(threads := s.threads - {a});
      Some(if Held(stage).Some? then Release(s1, Held(stage).value) else s1)
    case _ => None
  }

  // ----- what must hold in every state -----

  /** Committed files are complete and belong where they are. */
  ghost predicate CommittedOk(c: Config, s: State) {
    forall p | p in s.cache :: c.path(s.cache[p].key) == p && c.FileOk(s.cache[p])
  }

  /** A reader that got bytes got the source's, as many as it asked for or the slice has. */
  ghost predicate AnswersOk(c: Config, s: State) {
    forall a | a in s.threads && s.threads[a].stage.Returned? && s.threads[a].stage.outcome.Bytes? &&
    !s.threads[a].job.ahead ::
      var job := s.threads[a].job;
      s.threads[a].stage.outcome.bytes == Copied(c.source(job.key), job.off, job.len)
  }

  /** Between taking the lock and giving it back, a path has one filler. */
  ghost predicate OneFiller(c: Config, s: State) {
    forall a, b | a in s.threads && b in s.threads && Held(s.threads[a].stage).Some? && Held(s.threads[b].stage).Some?
      && c.path(s.threads[a].job.key) == c.path(s.threads[b].job.key) :: a == b
  }

  /** The cache holds the slice under its own path. */
  ghost predicate Cached(c: Config, s: State, k: Key) { c.path(k) in s.cache && s.cache[c.path(k)].key == k }

  /** Whoever has read the source, up to the commit, fills a gap: the cache does not hold the slice. */
  ghost predicate NoneNeedless(c: Config, s: State) {
    forall a | a in s.threads
      && (s.threads[a].stage.Filled? || s.threads[a].stage.Writing? || s.threads[a].stage.Tagged?) ::
      !Cached(c, s, s.threads[a].job.key)
  }

  /** No lock is left behind: whoever holds one is still at work with it. */
  ghost predicate NoLockLeft(s: State) {
    forall i | i in s.holder :: s.holder[i] in s.threads && Held(s.threads[s.holder[i]].stage) == Some(i)
  }

  ghost predicate Safe(c: Config, s: State) {
    CommittedOk(c, s) && AnswersOk(c, s) && OneFiller(c, s) && NoneNeedless(c, s) && NoLockLeft(s)
  }

  // ----- the inductive invariant -----

  ghost predicate BufOk(c: Config, s: State, k: Key, b: Buf) {
    c.Complete(k) && b in s.memory && b !in s.pool && c.source(k) <= s.memory[b]
  }

  ghost predicate StageOk(c: Config, s: State, job: Job, stage: Stage) {
    match stage
    case Opened(f) => c.FileOk(f)
    case Rechecked(_, found) => found.Some? ==> c.FileOk(found.value)
    case Filled(_, b) => BufOk(c, s, job.key, b)
    case Writing(_, b, tmp) => BufOk(c, s, job.key, b) && tmp <= c.source(job.key)
    case Tagged(_, b, tmp, k) => b in s.memory && b !in s.pool && k == job.key && tmp == c.source(k)
    case Unlocking(_, b) => b in s.memory && b !in s.pool
    case Returned(Bytes(p)) => job.ahead || p == Copied(c.source(job.key), job.off, job.len)
    case WaitingLock(i) => c.path(job.key) in s.lockFiles && s.lockFiles[c.path(job.key)] == i
    case _ => true
  }

  ghost predicate ThreadOk(c: Config, s: State, a: Actor)
    requires a in s.threads
  {
    var t := s.threads[a];
    && t.job.Valid() && StageOk(c, s, t.job, t.stage)
    && (Held(t.stage).Some? ==>
          && Held(t.stage).value in s.holder && s.holder[Held(t.stage).value] == a
          && c.path(t.job.key) in s.lockFiles && s.lockFiles[c.path(t.job.key)] == Held(t.stage).value)
  }

  ghost predicate BuffersApart(s: State) {
    && s.pool <= s.memory.Keys
    && forall a, b {:trigger s.threads[a], s.threads[b]} | a in s.threads && b in s.threads && a != b
         && Used(s.threads[a].stage).Some? && Used(s.threads[b].stage).Some? ::
         Used(s.threads[a].stage) != Used(s.threads[b].stage)
  }

  ghost predicate Inv(c: Config, s: State) {
    && CommittedOk(c, s) && BuffersApart(s)
    && (forall a {:trigger ThreadOk(c, s, a)} | a in s.threads :: ThreadOk(c, s, a))
  }

  /** What a thread saw of the cache under its lock is still so, or was collected. */
  ghost predicate SeenOk(c: Config, s: State, a: Actor)
    requires a in s.threads
  {
    var Thread(job, stage) := s.threads[a];
    match stage
    case Rechecked(_, found) => c.path(job.key) in s.cache ==> found == Some(s.cache[c.path(job.key)])
    case Filled(_, _) => !Cached(c, s, job.key)
    case Writing(_, _, _) => !Cached(c, s, job.key)
    case Tagged(_, _, _, _) => !Cached(c, s, job.key)
    case _ => true
  }

  ghost predicate Whole(c: Config, s: State) {
    Inv(c, s) && NoLockLeft(s) && forall a {:trigger SeenOk(c, s, a)} | a in s.threads :: SeenOk(c, s, a)
  }

  lemma InvIsSafe(c: Config, s: State)
    requires Whole(c, s)
    ensures Safe(c, s)
  {
    forall a | a in s.threads ensures ThreadOk(c, s, a) && SeenOk(c, s, a) {}
  }

  lemma LockFilesGrow(c: Config, s: State, s': State, step: Step)
    requires Next(c, s, s', step)
    ensures forall p | p in s.lockFiles :: p in s'.lockFiles && s'.lockFiles[p] == s.lockFiles[p]
  {
  }

  /** A lock is given up, or handed on, only by the thread that is in its stage of holding it. */
  lemma HolderChanges(c: Config, s: State, s': State, step: Step, i: Inode)
    requires Next(c, s, s', step) && i in s.holder
    ensures (i in s'.holder && s'.holder[i] == s.holder[i])
      || (!Outside(step) && step.a in s.threads && Held(s.threads[step.a].stage) == Some(i))
  {
  }

  /** No step takes a lock away from another thread. */
  lemma LocksKeep(c: Config, s: State, s': State, step: Step, x: Actor)
    requires Inv(c, s) && Next(c, s, s', step) && x in s.threads && (Outside(step) || x != step.a)
    ensures var held := Held(s.threads[x].stage); held.Some? ==> held.value in s'.holder && s'.holder[held.value] == x
  {
    assert ThreadOk(c, s, x);
    var held := Held(s.threads[x].stage);
    if held.Some? {
      HolderChanges(c, s, s', step, held.value);
      if !Outside(step) && step.a in s.threads { assert ThreadOk(c, s, step.a); }
    }
  }

  /** A buffer outside the pool is left alone, except that the thread that used it may put it back. */
  lemma BufferChanges(c: Config, s: State, s': State, step: Step, b: Buf)
    requires Next(c, s, s', step) && b in s.memory && b !in s.pool
    ensures b in s'.memory && s'.memory[b] == s.memory[b]
    ensures b in s'.pool ==> step.Unlock? && step.a in s.threads && Used(s.threads[step.a].stage) == Some(b)
  {
    if step.ReadSource? || step.Unlock? || step.Discard? {
    } else {
      assert s'.memory == s.memory && s'.pool == s.pool;
    }
  }

  /** No step touches a buffer that another thread uses. */
  lemma BuffersKeep(c: Config, s: State, s': State, step: Step, x: Actor)
    requires Inv(c, s) && Next(c, s, s', step) && x in s.threads && (Outside(step) || x != step.a)
    ensures Used(s.threads[x].stage).Some? ==>
      var b := Used(s.threads[x].stage).value;
      b in s.memory && b in s'.memory && b !in s'.pool && s'.memory[b] == s.memory[b]
  {
    assert ThreadOk(c, s, x);
    var used := Used(s.threads[x].stage);
    if used.Some? {
      BufferChanges(c, s, s', step, used.value);
      if step.Unlock? { var tx, ta := s.threads[x], s.threads[step.a]; }
    }
  }

  /** What a thread relies on: its lock, its lock file and its buffer. */
  ghost predicate Undisturbed(c: Config, s: State, s': State, x: Actor)
    requires x in s.threads
  {
    var t := s.threads[x];
    && x in s'.threads && s'.threads[x] == t
    && (c.path(t.job.key) in s.lockFiles ==>
          c.path(t.job.key) in s'.lockFiles && s'.lockFiles[c.path(t.job.key)] == s.lockFiles[c.path(t.job.key)])
    && (Held(t.stage).Some? ==> Held(t.stage).value in s'.holder && s'.holder[Held(t.stage).value] == x)
    && (Used(t.stage).Some? ==>
          var b := Used(t.stage).value; b in s.memory && b in s'.memory && b !in s'.pool && s'.memory[b] == s.memory[b])
  }

  lemma UndisturbedKeeps(c: Config, s: State, s': State, x: Actor)
    requires x in s.threads && ThreadOk(c, s, x) && Undisturbed(c, s, s', x)
    ensures ThreadOk(c, s', x)
  {
  }

  lemma OthersKeep(c: Config, s: State, s': State, step: Step, x: Actor)
    requires Inv(c, s) && Next(c, s, s', step) && x in s.threads && (Outside(step) || x != step.a)
    ensures Undisturbed(c, s, s', x)
  {
    Unmoved(c, s, s', step, x);
    LockFilesGrow(c, s, s', step);
    LocksKeep(c, s, s', step, x);
    BuffersKeep(c, s, s', step, x);
  }

  lemma Unmoved(c: Config, s: State, s': State, step: Step, x: Actor)
    requires Next(c, s, s', step) && (Outside(step) || x != step.a)
    ensures x in s.threads ==> x in s'.threads && s'.threads[x] == s.threads[x]
    ensures x !in s.threads && x in s'.threads ==>
      step.Deliver? && x == step.writer && step.a in s.threads && s.threads[step.a].stage.Filled?
      && var was := s.threads[step.a];
      s'.threads[x] == Thread(was.job, Writing(was.stage.ino, was.stage.buf, []))
  {
  }

  lemma WriterStarts(c: Config, s: State, s': State, step: Step)
    requires Inv(c, s) && Next(c, s, s', step) && step.Deliver?
    ensures step.writer in s'.threads && ThreadOk(c, s', step.a)
    ensures ThreadOk(c, s', step.writer)
  {
    assert ThreadOk(c, s, step.a);
    var Thread(job, stage) := s.threads[step.a];
    assert Load(s, stage.buf, 0, job.key.len) == c.source(job.key);
  }

  ghost predicate Looking(step: Step) {
    step.Start? || step.Open? || step.OpenFails? || step.Compare? || step.OpenLock? || step.Lock? || step.LockFails?
  }

  lemma LookerKeeps(c: Config, s: State, s': State, step: Step)
    requires Inv(c, s) && Next(c, s, s', step) && Looking(step)
    ensures step.a in s'.threads && ThreadOk(c, s', step.a)
  {
    if step.a in s.threads { assert ThreadOk(c, s, step.a); }
  }

  lemma FillerKeeps(c: Config, s: State, s': State, step: Step)
    requires Inv(c, s) && Next(c, s, s', step) && !Looking(step) && !Outside(step) && step.a in s'.threads
    requires !step.Deliver?
    ensures ThreadOk(c, s', step.a)
  {
    assert ThreadOk(c, s, step.a);
  }

  /** A thread goes on with the buffer it has, or takes one that is free. */
  lemma BufferTaken(c: Config, s: State, s': State, step: Step)
    requires Next(c, s, s', step) && !Outside(step) && step.a in s'.threads && Used(s'.threads[step.a].stage).Some?
    ensures var b := Used(s'.threads[step.a].stage).value;
      (step.a in s.threads && Used(s.threads[step.a].stage) == Some(b)) || b !in s.memory || b in s.pool
  {
  }

  /** A buffer newly taken up is one that no other thread had. */
  lemma NewBufferFree(c: Config, s: State, s': State, step: Step, y: Actor)
    requires Inv(c, s) && Next(c, s, s', step) && !Outside(step) && step.a in s'.threads && y != step.a
    requires y in s.threads
    ensures var b := Used(s'.threads[step.a].stage); b.Some? ==> Used(s.threads[y].stage) != b
  {
    assert ThreadOk(c, s, y);
    if Used(s'.threads[step.a].stage).Some? {
      BufferTaken(c, s, s', step);
      if step.a in s.threads { var ta, ty := s.threads[step.a], s.threads[y]; }
    }
  }

  /** A buffer handed over to a write-back leaves its reader. */
  lemma HandedOver(c: Config, s: State, s': State, step: Step, y: Actor)
    requires Inv(c, s) && Next(c, s, s', step) && step.Deliver? && y in s'.threads && y != step.writer
    ensures step.writer in s'.threads
    ensures Used(s'.threads[y].stage).None? || Used(s'.threads[y].stage) != Used(s'.threads[step.writer].stage)
  {
    if y in s.threads { var ta, ty := s.threads[step.a], s.threads[y]; }
  }

  lemma Apart(c: Config, s: State, s': State, step: Step, x: Actor, y: Actor)
    requires Inv(c, s) && Next(c, s, s', step) && x in s'.threads && y in s'.threads && x != y
    requires Outside(step) || y != step.a
    ensures Used(s'.threads[x].stage).None? || Used(s'.threads[y].stage).None?
      || Used(s'.threads[x].stage) != Used(s'.threads[y].stage)
  {
    Unmoved(c, s, s', step, y);
    if y !in s.threads {
      HandedOver(c, s, s', step, x);
    } else if !Outside(step) && x == step.a {
      NewBufferFree(c, s, s', step, y);
    } else {
      Unmoved(c, s, s', step, x);
      if x !in s.threads { HandedOver(c, s, s', step, y); } else { var tx, ty := s.threads[x], s.threads[y]; }
    }
  }

  /** Only a commit adds a file, and only under its own path. */
  lemma CacheChanges(c: Config, s: State, s': State, step: Step, p: Path)
    requires Next(c, s, s', step) && p in s'.cache
    ensures (p in s.cache && s'.cache[p] == s.cache[p])
      || (step.Commit? && step.a in s.threads && s.threads[step.a].stage.Tagged?
        && p == c.path(s.threads[step.a].job.key)
          && s'.cache[p] == File(s.threads[step.a].stage.key, s.threads[step.a].stage.tmp))
  {
  }

  lemma PoolChanges(c: Config, s: State, s': State, step: Step)
    requires Next(c, s, s', step)
    ensures s'.pool <= s.pool + (if step.Unlock? && step.a in s.threads && s.threads[step.a].stage.Unlocking?
      then {s.threads[step.a].stage.buf} else {})
    ensures s.memory.Keys - (if step.Discard? then {step.buf} else {}) <= s'.memory.Keys
    ensures step.Discard? ==> step.buf !in s'.pool
  {
  }

  lemma CommitKeeps(c: Config, s: State, s': State, step: Step)
    requires Inv(c, s) && Next(c, s, s', step)
    ensures CommittedOk(c, s') && s'.pool <= s'.memory.Keys
  {
    if !Outside(step) && step.a in s.threads { assert ThreadOk(c, s, step.a); }
    PoolChanges(c, s, s', step);
    forall p | p in s'.cache ensures c.path(s'.cache[p].key) == p && c.FileOk(s'.cache[p]) {
      CacheChanges(c, s, s', step, p);
    }
  }

  lemma ThreadKeeps(c: Config, s: State, s': State, step: Step, x: Actor)
    requires Inv(c, s) && Next(c, s, s', step) && x in s'.threads
    ensures ThreadOk(c, s', x)
  {
    if !Outside(step) && x == step.a {
      if step.Deliver? { WriterStarts(c, s, s', step); }
      else if Looking(step) { LookerKeeps(c, s, s', step); }
      else { FillerKeeps(c, s, s', step); }
    } else if x in s.threads {
      OthersKeep(c, s, s', step, x);
      assert ThreadOk(c, s, x);
      UndisturbedKeeps(c, s, s', x);
    } else {
      Unmoved(c, s, s', step, x);
      WriterStarts(c, s, s', step);
    }
  }

  /** Every step of every thread keeps the invariant. */
  lemma StepKeepsInv(c: Config, s: State, s': State, step: Step)
    requires Inv(c, s) && Next(c, s, s', step)
    ensures Inv(c, s')
  {
    CommitKeeps(c, s, s', step);
    forall x {:trigger ThreadOk(c, s', x)} | x in s'.threads ensures ThreadOk(c, s', x) {
      ThreadKeeps(c, s, s', step, x);
    }
    forall x, y {:trigger s'.threads[x], s'.threads[y]} | x in s'.threads && y in s'.threads && x != y
      ensures Used(s'.threads[x].stage).None? || Used(s'.threads[y].stage).None?
        || Used(s'.threads[x].stage) != Used(s'.threads[y].stage)
    {
      if Outside(step) || y != step.a { Apart(c, s, s', step, x, y); } else { Apart(c, s, s', step, y, x); }
    }
  }

  /** Any number of steps from the empty cache directory. */
  ghost predicate Run(c: Config, states: seq<State>, steps: seq<Step>) {
    && |states| == |steps| + 1 && Init(states[0])
    && forall i {:trigger steps[i]} | 0 <= i < |steps| :: Next(c, states[i], states[i + 1], steps[i])
  }

  // ----- the cache and the locks -----

  /** Two threads never hold the lock of one path. */
  lemma LockAlone(c: Config, s: State, x: Actor, y: Actor)
    requires Inv(c, s) && x in s.threads && y in s.threads
    requires Held(s.threads[x].stage).Some? && Held(s.threads[y].stage).Some?
    requires c.path(s.threads[x].job.key) == c.path(s.threads[y].job.key)
    ensures x == y
  {
    assert ThreadOk(c, s, x) && ThreadOk(c, s, y);
  }

  lemma OthersSee(c: Config, s: State, s': State, step: Step, x: Actor)
    requires Inv(c, s) && Next(c, s, s', step) && x in s.threads && SeenOk(c, s, x) && (Outside(step) || x != step.a)
    ensures x in s'.threads && SeenOk(c, s', x)
  {
    Unmoved(c, s, s', step, x);
    var p := c.path(s.threads[x].job.key);
    if p in s'.cache && Held(s.threads[x].stage).Some? {
      CacheChanges(c, s, s', step, p);
      if step.Commit? && step.a in s.threads && s.threads[step.a].stage.Tagged?
        && c.path(s.threads[step.a].job.key) == p {
        LockAlone(c, s, x, step.a);
      }
    }
  }

  lemma MoverSees(c: Config, s: State, s': State, step: Step)
    requires Inv(c, s) && Next(c, s, s', step) && !Outside(step) && step.a in s'.threads
    requires step.a in s.threads ==> SeenOk(c, s, step.a)
    ensures SeenOk(c, s', step.a)
  {
    if Looking(step) { LookerSees(c, s, s', step); } else { FillerSees(c, s, s', step); }
  }

  lemma LookerSees(c: Config, s: State, s': State, step: Step)
    requires Next(c, s, s', step) && Looking(step) && step.a in s'.threads
    ensures SeenOk(c, s', step.a)
  {
  }

  lemma FillerSees(c: Config, s: State, s': State, step: Step)
    requires Next(c, s, s', step) && !Looking(step) && !Outside(step) && step.a in s'.threads
    requires step.a in s.threads ==> SeenOk(c, s, step.a)
    ensures SeenOk(c, s', step.a)
  {
  }

  lemma ThreadSees(c: Config, s: State, s': State, step: Step, x: Actor)
    requires Whole(c, s) && Next(c, s, s', step) && x in s'.threads
    ensures SeenOk(c, s', x)
  {
    if x in s.threads { assert SeenOk(c, s, x); }
    if !Outside(step) && step.a in s.threads { assert SeenOk(c, s, step.a); }
    if !Outside(step) && x == step.a {
      MoverSees(c, s, s', step);
    } else if x in s.threads {
      OthersSee(c, s, s', step, x);
    } else {
      Unmoved(c, s, s', step, x);
    }
  }

  lemma LocksStay(c: Config, s: State, s': State, step: Step)
    requires Inv(c, s) && Next(c, s, s', step) && NoLockLeft(s)
    ensures NoLockLeft(s')
  {
    forall i | i in s'.holder ensures s'.holder[i] in s'.threads && Held(s'.threads[s'.holder[i]].stage) == Some(i) {
      LockStays(c, s, s', step, i);
    }
  }

  lemma LockStays(c: Config, s: State, s': State, step: Step, i: Inode)
    requires Inv(c, s) && Next(c, s, s', step) && i in s'.holder
    requires i in s.holder ==> s.holder[i] in s.threads && Held(s.threads[s.holder[i]].stage) == Some(i)
    ensures s'.holder[i] in s'.threads && Held(s'.threads[s'.holder[i]].stage) == Some(i)
  {
    if i !in s.holder {
      if step.Deliver? && step.a in s.threads { assert ThreadOk(c, s, step.a); }
      LockTaken(c, s, s', step, i);
    } else if Outside(step) || s.holder[i] != step.a {
      var x := s.holder[i];
      Unmoved(c, s, s', step, x);
      LocksKeep(c, s, s', step, x);
    } else {
      LockCarried(c, s, s', step, i);
    }
  }

  lemma LockTaken(c: Config, s: State, s': State, step: Step, i: Inode)
    requires Next(c, s, s', step) && i in s'.holder && i !in s.holder
    requires step.Deliver? && step.a in s.threads && s.threads[step.a].stage.Filled? ==>
      s.threads[step.a].stage.ino in s.holder
    ensures s'.holder[i] in s'.threads && Held(s'.threads[s'.holder[i]].stage) == Some(i)
  {
    if !step.Lock? && !step.Deliver? { NoNewLock(c, s, s', step); }
  }

  lemma NoNewLock(c: Config, s: State, s': State, step: Step)
    requires Next(c, s, s', step) && !step.Lock? && !step.Deliver?
    ensures s'.holder.Keys <= s.holder.Keys
  {
  }

  /** Whoever works on keeps its lock, or gives it back, or hands it to the write-back. */
  lemma LockCarried(c: Config, s: State, s': State, step: Step, i: Inode)
    requires Next(c, s, s', step) && !Outside(step) && step.a in s.threads && Held(s.threads[step.a].stage) == Some(i)
    requires i in s.holder && s.holder[i] == step.a && i in s'.holder
    ensures s'.holder[i] in s'.threads && Held(s'.threads[s'.holder[i]].stage) == Some(i)
  {
  }

  lemma StepKeepsWhole(c: Config, s: State, s': State, step: Step)
    requires Whole(c, s) && Next(c, s, s', step)
    ensures Whole(c, s')
  {
    StepKeepsInv(c, s, s', step);
    LocksStay(c, s, s', step);
    forall x {:trigger SeenOk(c, s', x)} | x in s'.threads ensures SeenOk(c, s', x) { ThreadSees(c, s, s', step, x); }
  }

  lemma {:induction false} RunsAreSafe(c: Config, states: seq<State>, steps: seq<Step>, i: nat)
    requires Run(c, states, steps) && i < |states|
    ensures Whole(c, states[i]) && Safe(c, states[i])
  {
    if i > 0 {
      RunsAreSafe(c, states, steps, i - 1);
      StepKeepsWhole(c, states[i - 1], states[i], steps[i - 1]);
    }
    InvIsSafe(c, states[i]);
  }

  // ----- who fails, and who is served from the cache -----

  ghost predicate By(step: Step, a: Actor) {
    (!Outside(step) && step.a == a) || (step.Deliver? && step.writer == a)
  }

  /** The last step of `a` was its lock, or its fill, failing. */
  ghost predicate FailedAt(steps: seq<Step>, i: nat, a: Actor, j: nat) {
    j < i <= |steps| && (steps[j] == LockFails(a) || steps[j] == FillFails(a))
    && forall k {:trigger steps[k]} | j < k < i :: !By(steps[k], a)
  }

  lemma FailsOnce(c: Config, s: State, s': State, step: Step, a: Actor)
    requires Next(c, s, s', step) && a in s'.threads && s'.threads[a].stage == Returned(Failed)
    ensures step == LockFails(a) || step == FillFails(a)
      || (!By(step, a) && a in s.threads && s.threads[a].stage == Returned(Failed))
  {
    if Outside(step) || a != step.a { Unmoved(c, s, s', step, a); }
  }

  /** In every run a call fails only because its own lock or its own fill has just failed. */
  lemma {:induction false} FailuresCaused(c: Config, states: seq<State>, steps: seq<Step>, i: nat, a: Actor)
    returns (j: nat)
    requires Run(c, states, steps) && i < |states| && a in states[i].threads
    requires states[i].threads[a].stage == Returned(Failed)
    ensures FailedAt(steps, i, a, j)
  {
    assert i > 0;
    var step := steps[i - 1];
    FailsOnce(c, states[i - 1], states[i], step, a);
    if step == LockFails(a) || step == FillFails(a) {
      j := i - 1;
    } else {
      j := FailuresCaused(c, states, steps, i - 1, a);
    }
  }

  /** A fill answers its reader at once, if there is anything to read at its offset. */
  lemma FillAnswers(c: Config, s: State, s': State, a: Actor, w: Actor)
    requires Inv(c, s) && Next(c, s, s', Deliver(a, w))
    requires !s.threads[a].job.ahead && s.threads[a].job.off < s.threads[a].job.key.len
    ensures var job := s.threads[a].job;
      a in s'.threads && s'.threads[a].stage == Returned(Bytes(Copied(c.source(job.key), job.off, job.len)))
  {
    assert ThreadOk(c, s, a);
    WriterStarts(c, s, s', Deliver(a, w));
    var job := s.threads[a].job;
    assert Copied(c.source(job.key), job.off, job.len) != [];
    assert Load(s, s.threads[a].stage.buf, 0, job.key.len) == c.source(job.key);
  }

  /** The step takes the file at a path away, or puts another there. */
  ghost predicate Replaces(c: Config, s: State, step: Step, p: Path) {
    step == Collect(CacheName(p)) || (step.Commit? && step.a in s.threads && c.path(s.threads[step.a].job.key) == p)
  }

  lemma CacheStays(c: Config, s: State, s': State, step: Step, p: Path)
    requires Next(c, s, s', step) && p in s.cache && !Replaces(c, s, step, p)
    ensures p in s'.cache && s'.cache[p] == s.cache[p]
  {
  }

  lemma CommitFiles(c: Config, s: State, s': State, a: Actor)
    requires Inv(c, s) && Next(c, s, s', Commit(a))
    ensures var k := s.threads[a].job.key; c.path(k) in s'.cache && s'.cache[c.path(k)] == File(k, c.source(k))
  {
    assert ThreadOk(c, s, a);
  }

  ghost predicate Untouched(c: Config, states: seq<State>, steps: seq<Step>, i: nat, j: nat, p: Path)
    requires |states| == |steps| + 1 && j <= |steps|
  {
    forall n {:trigger steps[n]} | i <= n < j :: !Replaces(c, states[n], steps[n], p)
  }

  lemma {:induction false} FileStays(c: Config, states: seq<State>, steps: seq<Step>, i: nat, j: nat, p: Path)
    requires Run(c, states, steps) && i <= j <= |steps| && p in states[i].cache && Untouched(c, states, steps, i, j, p)
    ensures p in states[j].cache && states[j].cache[p] == states[i].cache[p]
    decreases j
  {
    if i < j {
      FileStays(c, states, steps, i, j - 1, p);
      assert !Replaces(c, states[j - 1], steps[j - 1], p);
      CacheStays(c, states[j - 1], states[j], steps[j - 1], p);
    }
  }

  lemma {:induction false} Waits(c: Config, states: seq<State>, steps: seq<Step>, i: nat, j: nat, a: Actor)
    requires Run(c, states, steps) && i <= j <= |steps| && a in states[i].threads
    requires forall n {:trigger steps[n]} | i <= n < j :: !By(steps[n], a)
    ensures a in states[j].threads && states[j].threads[a] == states[i].threads[a]
    decreases j
  {
    if i < j {
      Waits(c, states, steps, i, j - 1, a);
      assert !By(steps[j - 1], a);
      Unmoved(c, states[j - 1], states[j], steps[j - 1], a);
    }
  }

  /** In every run, a slice that was committed at step `i` is served from the cache to whoever opens it at step `j`,
    unless it was collected or replaced in between: the next step of that reader, at `m`, answers it, or it crashes. */
  lemma CommittedIsServed(c: Config, states: seq<State>, steps: seq<Step>, i: nat, j: nat, m: nat, a: Actor, r: Actor)
    requires Run(c, states, steps) && i < j < m < |steps| && steps[i] == Commit(a) && steps[j] == Open(r)
    requires a in states[i].threads && r in states[j].threads
    requires states[j].threads[r].job.key == states[i].threads[a].job.key
    requires Untouched(c, states, steps, i + 1, j, c.path(states[i].threads[a].job.key))
    requires By(steps[m], r) && !steps[m].Crash? && forall n {:trigger steps[n]} | j < n < m :: !By(steps[n], r)
    ensures var job := states[j].threads[r].job;
      r in states[m + 1].threads
      && states[m + 1].threads[r].stage == Returned(Bytes(Copied(c.source(job.key), job.off, job.len)))
  {
    var k := states[i].threads[a].job.key;
    RunsAreSafe(c, states, steps, i);
    CommitFiles(c, states[i], states[i + 1], a);
    FileStays(c, states, steps, i + 1, j, c.path(k));
    OpenSees(c, states[j], states[j + 1], r);
    Waits(c, states, steps, j + 1, m, r);
    HitAnswers(c, states[m], states[m + 1], steps[m], r);
  }

  /** In every run, a read first looks into the cache, and a read-ahead goes for the lock at once: their first own
    step, at `m`, is of these kinds, or they crash. */
  lemma FirstStep(c: Config, states: seq<State>, steps: seq<Step>, j: nat, m: nat, r: Actor, job: Job)
    requires Run(c, states, steps) && j < m < |steps| && steps[j] == Start(r, job)
    requires By(steps[m], r) && !steps[m].Crash? && forall n {:trigger steps[n]} | j < n < m :: !By(steps[n], r)
    ensures if job.ahead then steps[m].OpenLock? || steps[m].LockFails? else steps[m].Open? || steps[m].OpenFails?
  {
    assert Next(c, states[j], states[j + 1], steps[j]);
    Waits(c, states, steps, j + 1, m, r);
    assert Next(c, states[m], states[m + 1], steps[m]);
  }

  lemma OpenSees(c: Config, s: State, s': State, r: Actor)
    requires Next(c, s, s', Open(r)) && c.path(s.threads[r].job.key) in s.cache
    ensures r in s'.threads && s'.threads[r] == s.threads[r].(stage := Opened(s.cache[c.path(s.threads[r].job.key)]))
  {
  }

  lemma HitAnswers(c: Config, s: State, s': State, step: Step, r: Actor)
    requires Next(c, s, s', step) && By(step, r) && !step.Crash? && r in s.threads
    requires var job := s.threads[r].job; s.threads[r].stage == Opened(File(job.key, c.source(job.key)))
    ensures var job := s.threads[r].job;
      r in s'.threads && s'.threads[r].stage == Returned(Bytes(Copied(c.source(job.key), job.off, job.len)))
  {
  }

  // ----- buffers -----

  /** Every buffer there is waits in the pool or is in use. */
  ghost predicate NoneLost(s: State) {
    forall b | b in s.memory :: b in s.pool || exists a :: a in s.threads && Used(s.threads[a].stage) == Some(b)
  }

  lemma BufferKept(c: Config, s: State, s': State, step: Step, b: Buf)
    requires Next(c, s, s', step) && !step.Crash? && b in s'.memory
    requires b in s.memory ==> b in s.pool || exists a :: a in s.threads && Used(s.threads[a].stage) == Some(b)
    ensures b in s'.pool || exists a :: a in s'.threads && Used(s'.threads[a].stage) == Some(b)
  {
    if b in s.memory && b !in s.pool {
      var a :| a in s.threads && Used(s.threads[a].stage) == Some(b);
      if Outside(step) || a != step.a { Unmoved(c, s, s', step, a); } else { UserMoves(c, s, s', step, b); }
    } else if b !in s'.pool {
      BufferOut(c, s, s', step, b);
    }
  }

  lemma BufferOut(c: Config, s: State, s': State, step: Step, b: Buf)
    requires Next(c, s, s', step) && b in s'.memory && b !in s'.pool && (b in s.memory ==> b in s.pool)
    ensures step.ReadSource? && step.a in s'.threads && Used(s'.threads[step.a].stage) == Some(b)
  {
  }

  lemma UserMoves(c: Config, s: State, s': State, step: Step, b: Buf)
    requires Next(c, s, s', step) && !step.Crash? && !Outside(step) && step.a in s.threads
    requires Used(s.threads[step.a].stage) == Some(b)
    ensures b in s'.pool || exists a :: a in s'.threads && Used(s'.threads[a].stage) == Some(b)
  {
    if step.Deliver? { assert Used(s'.threads[step.writer].stage) == Some(b); }
    else if !step.Unlock? { assert Used(s'.threads[step.a].stage) == Some(b); }
  }

  /** As long as nobody crashes, no buffer is ever lost. */
  lemma {:induction false} BuffersReturn(c: Config, states: seq<State>, steps: seq<Step>, i: nat)
    requires Run(c, states, steps) && i < |states| && forall k {:trigger steps[k]} | 0 <= k < i :: !steps[k].Crash?
    ensures NoneLost(states[i])
  {
    if i > 0 {
      BuffersReturn(c, states, steps, i - 1);
      var s, s', step := states[i - 1], states[i], steps[i - 1];
      forall b | b in s'.memory
        ensures b in s'.pool || exists a :: a in s'.threads && Used(s'.threads[a].stage) == Some(b)
      {
        BufferKept(c, s, s', step, b);
      }
    }
  }

  // ----- nobody waits for ever -----

  /** A number that is not in use. */
  lemma Unused(xs: set<nat>) returns (m: nat)
    ensures forall x | x in xs :: x < m
  {
    m := 0;
    if xs != {} {
      var x :| x in xs;
      m := Unused(xs - {x});
      m := if m <= x then x + 1 else m;
      forall y | y in xs ensures y < m { assert y == x || y in xs - {x}; }
    }
  }

  /** The step goes on with the work, rather than giving it up; only a source that is too short makes it fail. */
  ghost predicate GoesOn(c: Config, s: State, step: Step) {
    !Outside(step) && !step.Crash? && !step.Start? && !step.OpenFails? && !step.LockFails? && !step.Abort?
    && step.a in s.threads && (step.FillFails? ==> !c.Complete(s.threads[step.a].job.key))
  }

  /** The next step of a thread that holds a lock. */
  lemma HolderGoesOn(c: Config, s: State, a: Actor) returns (step: Step)
    requires Inv(c, s) && a in s.threads && Held(s.threads[a].stage).Some?
    ensures GoesOn(c, s, step) && step.a == a && After(c, s, step).Some?
  {
    assert ThreadOk(c, s, a);
    var Thread(job, stage) := s.threads[a];
    match stage
    case Locked(_) => step := Recheck(a);
    case Rechecked(_, found) =>
      if found.Some? && found.value.key == job.key {
        step := LostRace(a);
      } else if c.Complete(job.key) {
        var b := Unused(s.memory.Keys);
        step := ReadSource(a, b, c.source(job.key));
      } else {
        step := FillFails(a);
      }
    case Filled(_, _) =>
      var w := Unused(s.threads.Keys);
      step := Deliver(a, w);
    case Writing(_, _, tmp) => step := if |tmp| < job.key.len then WriteSome(a, job.key.len - |tmp|) else Tag(a);
    case Tagged(_, _, _, _) => step := Commit(a);
    case Unlocking(_, _) => step := Unlock(a);
  }

  /** The thread that `a` waits for: itself, unless it waits for a lock that another one holds. */
  ghost function WaitsFor(s: State, a: Actor): Actor
    requires a in s.threads
  {
    var stage := s.threads[a].stage;
    if stage.WaitingLock? && stage.ino in s.holder then s.holder[stage.ino] else a
  }

  /** Whoever has not returned can go on, or waits for a lock whose holder can: no deadlock, no lock left behind. */
  lemma SomeoneGoesOn(c: Config, s: State, a: Actor) returns (step: Step)
    requires Whole(c, s) && a in s.threads && !s.threads[a].stage.Returned?
    ensures GoesOn(c, s, step) && step.a == WaitsFor(s, a) && After(c, s, step).Some?
  {
    var stage := s.threads[a].stage;
    match stage
    case Opening => step := Open(a);
    case Opened(_) => step := Compare(a);
    case OpeningLock =>
      var ino := Unused(s.lockFiles.Values + s.holder.Keys);
      step := OpenLock(a, ino);
    case WaitingLock(i) =>
      if i in s.holder { step := HolderGoesOn(c, s, s.holder[i]); } else { step := Lock(a); }
    case _ => step := HolderGoesOn(c, s, a);
  }
}
