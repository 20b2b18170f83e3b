/** The SCSI command pool of pkg/blockdev/cmdpool.go as a step system: workers and
  one goroutine per device meet on an unbuffered request channel, wait groups count
  outstanding commands and live goroutines, and `Close` shuts everything down.
  A send on a closed channel or a negative wait group sets `panicked`. */
module CmdPool {
  import opened Prelude

  type Cmd = nat
  type Id = nat

  datatype Worker =
    | Idle
    | Handling(dev: Id, cmd: Cmd)
    | Sending(dev: Id, cmd: Cmd)  // the response is about to go out
    | Acking(dev: Id, cmd: Cmd)   // about to call outstanding.Done
    | Gone

  datatype Phase =
    | Selecting
    | Offering(cmd: Cmd)          // took a command, blocked on the request channel
    | Draining                    // input closed, waiting for outstanding commands
    | Exited

  /** `accepted` and `answers` record what came in and what went out. */
  datatype Device = Device(
    phase: Phase, outstanding: int, inClosed: bool, outClosed: bool,
    accepted: set<Cmd>, answers: seq<Cmd>, dropped: Option<Cmd>)

  datatype State = State(
    workers: map<Id, Worker>, devices: map<Id, Device>,
    done: bool, waited: bool, requestsClosed: bool, live: int, panicked: bool)

  ghost predicate Init(s: State) {
    && (forall w | w in s.workers :: s.workers[w] == Idle)
    && s.live == |s.workers| && s.devices == map[] && !s.done && !s.waited
    && !s.requestsClosed && !s.panicked
  }

  datatype Step =
    | DevReady(d: Id)
    | Receive(d: Id, cmd: Cmd)
    | CloseInput(d: Id)
    | SeeClosed(d: Id)
    | CloseOutput(d: Id)
    | Quit(d: Id)                 // saw `done` while selecting
    | Drop(d: Id)                 // saw `done` while offering
    | Offer(d: Id, w: Id)
    | OfferClosed(d: Id)          // the request channel is already closed
    | Handled(w: Id)
    | Send(w: Id)
    | Ack(w: Id)
    | Retire(w: Id)
    | CloseDone
    | Wait                        // the wait group is at zero, `Close` goes on
    | CloseRequests

  ghost function SetDevice(s: State, d: Id, dev: Device): State {
    s.(devices := s.devices[d := dev])
  }

  ghost function SetWorker(s: State, w: Id, worker: Worker): State {
    s.(workers := s.workers[w := worker])
  }

  ghost function NewDevice(s: State, d: Id): State {
    SetDevice(s, d, Device(Selecting, 0, false, false, {}, [], None)).(live := s.live + 1)
  }

  ghost predicate Next(s: State, s': State, step: Step) {
    After(s, step) == Some(s')
  }

  ghost function After(s: State, step: Step): Option<State> {
    if step.CloseDone? then
      if s.done then None else Some(s.(done := true))
    else if step.Wait? then
      if !s.done || s.live != 0 || s.waited then None else Some(s.(waited := true))
    else if step.CloseRequests? then
      if !s.waited || s.requestsClosed then None else Some(s.(requestsClosed := true))
    else if step.DevReady? then
      if step.d in s.devices then None
      else Some(NewDevice(s, step.d))
    else if step.Handled? || step.Send? || step.Ack? || step.Retire? then
      if step.w !in s.workers then None else WorkerStep(s, step, step.w, s.workers[step.w])
    else if step.d !in s.devices then None
    else DeviceStep(s, step, step.d, s.devices[step.d])
  }

  ghost function DeviceStep(s: State, step: Step, d: Id, dev: Device): Option<State> {
    match (step, dev.phase)
    case (Receive(_, cmd), Selecting) =>
      if dev.inClosed || cmd in dev.accepted then None
      else
        Some(SetDevice(s, d,
          dev.(phase := Offering(cmd), outstanding := dev.outstanding + 1, accepted := dev.accepted + {cmd})))
    case (CloseInput(_), _) => if dev.inClosed then None else Some(SetDevice(s, d, dev.(inClosed := true)))
    case (SeeClosed(_), Selecting) => if !dev.inClosed then None else Some(SetDevice(s, d, dev.(phase := Draining)))
    case (CloseOutput(_), Draining) =>
      if dev.outstanding != 0 then None
      else
        Some(SetDevice(s, d, dev.(phase := Exited, outClosed := true)).(
          live := s.live - 1, panicked := s.panicked || dev.outClosed || s.live <= 0))
    case (Quit(_), Selecting) =>
      if !s.done then None
      else Some(SetDevice(s, d, dev.(phase := Exited)).(live := s.live - 1, panicked := s.panicked || s.live <= 0))
    case (Drop(_), Offering(cmd)) =>
      if !s.done then None
      else
        Some(SetDevice(s, d, dev.(phase := Exited, dropped := Some(cmd))).(
          live := s.live - 1, panicked := s.panicked || s.live <= 0))
    case (Offer(_, w), Offering(cmd)) =>
      if s.requestsClosed || w !in s.workers || s.workers[w] != Idle then None
      else Some(SetWorker(SetDevice(s, d, dev.(phase := Selecting)), w, Handling(d, cmd)))
    case (OfferClosed(_), Offering(_)) =>
      if !s.requestsClosed then None else Some(s.(panicked := true))
    case _ => None
  }

  ghost function WorkerStep(s: State, step: Step, w: Id, worker: Worker): Option<State> {
    match (step, worker)
    case (Handled(_), Handling(d, cmd)) => Some(SetWorker(s, w, Sending(d, cmd)))
    case (Send(_), Sending(d, cmd)) =>
      if d !in s.devices then None
      else
        var dev := s.devices[d];
        Some(SetWorker(SetDevice(s, d, dev.(answers := dev.answers + [cmd])), w, Acking(d, cmd)).(
          panicked := s.panicked || dev.outClosed))
    case (Ack(_), Acking(d, cmd)) =>
      if d !in s.devices then None
      else
        var dev := s.devices[d];
        Some(SetWorker(SetDevice(s, d, dev.(outstanding := dev.outstanding - 1)), w, Idle).(
          panicked := s.panicked || dev.outstanding <= 0))
    case (Retire(_), Idle) =>
      if !s.done then None else Some(SetWorker(s, w, Gone).(live := s.live - 1, panicked := s.panicked || s.live <= 0))
    case _ => None
  }

  // ----- what must hold in every state -----

  ghost predicate Distinct(cmds: seq<Cmd>) {
    forall i, j | 0 <= i < j < |cmds| :: cmds[i] != cmds[j]
  }

  ghost predicate DeviceSafe(s: State, dev: Device) {
    && Distinct(dev.answers)                                          // no command is answered twice
    && (forall c | c in dev.answers :: c in dev.accepted)             // nothing is answered unasked
    && (dev.outClosed ==> forall c | c in dev.accepted :: c in dev.answers) // output closes after the last answer
    && (dev.dropped.Some? ==> s.done && !dev.outClosed)               // a command is dropped only at shutdown
    && (dev.outClosed ==> dev.inClosed && dev.phase.Exited?)          // output closes after the input, at the end
    && (dev.phase.Exited? && !s.done ==> dev.outClosed)               // and before the shutdown it always does
    // once everything has stopped, only the one dropped command is unanswered
    && (s.waited ==> forall c | c in dev.accepted :: c in dev.answers || dev.dropped == Some(c))
  }

  ghost predicate Safe(s: State) {
    && !s.panicked
    && (forall w | w in s.workers && s.workers[w] == Gone :: s.done)  // no worker leaves before the shutdown
    && forall d | d in s.devices :: DeviceSafe(s, s.devices[d])
  }

  // ----- the inductive invariant -----

  ghost predicate Busy(worker: Worker, d: Id) {
    (worker.Handling? || worker.Sending? || worker.Acking?) && worker.dev == d
  }

  ghost function BusyOn(workers: map<Id, Worker>, d: Id): set<Id> {
    set w | w in workers && Busy(workers[w], d)
  }

  ghost predicate WorksOn(worker: Worker, d: Id, c: Cmd) {
    (worker.Handling? || worker.Sending?) && worker.dev == d && worker.cmd == c
  }

  ghost predicate WorkerOk(s: State, w: Id)
    requires w in s.workers
  {
    var worker := s.workers[w];
    && (worker.Gone? ==> s.done)
    && (worker.Handling? || worker.Sending? || worker.Acking? ==> worker.dev in s.devices)
    && (worker.Handling? || worker.Sending? ==>
          var dev := s.devices[worker.dev];
          worker.cmd in dev.accepted && worker.cmd !in dev.answers && dev.phase != Offering(worker.cmd)
            && dev.dropped != Some(worker.cmd))
  }

  /** Every accepted command is answered, offered, dropped, or in one worker's hands. */
  ghost predicate Accounted(s: State, d: Id, c: Cmd)
    requires d in s.devices
  {
    var dev := s.devices[d];
    c in dev.accepted ==>
      c in dev.answers || dev.phase == Offering(c) || dev.dropped == Some(c)
      || exists w | w in s.workers :: WorksOn(s.workers[w], d, c)
  }

  ghost predicate DeviceOk(s: State, d: Id)
    requires d in s.devices
  {
    var dev := s.devices[d];
    && Distinct(dev.answers) && (forall c | c in dev.answers :: c in dev.accepted)
    && dev.outstanding == |BusyOn(s.workers, d)| + (if dev.phase.Offering? || dev.dropped.Some? then 1 else 0)
    && (dev.phase.Offering? ==> dev.phase.cmd in dev.accepted && dev.phase.cmd !in dev.answers)
    && (dev.dropped.Some? ==>
      dev.phase.Exited? && s.done && dev.dropped.value in dev.accepted && dev.dropped.value !in dev.answers)
    && (dev.outClosed ==> dev.phase.Exited? && dev.outstanding == 0 && dev.inClosed)
    && (dev.phase.Draining? ==> dev.inClosed) && (dev.phase.Exited? ==> dev.outClosed || s.done)
    && (forall c {:trigger Accounted(s, d, c)} :: Accounted(s, d, c))
  }

  ghost function LiveWorkers(workers: map<Id, Worker>): set<Id> { set w | w in workers && workers[w] != Gone }

  ghost function LiveDevices(devices: map<Id, Device>): set<Id> { set d | d in devices && devices[d].phase != Exited }

  /** The pool's wait group counts the live goroutines. (Carried whole by the verifier
    except where `Unfold(true)` is asserted.) */
  ghost predicate Counted(s: State) {
    forall u {:trigger Unfold(u)} :: Unfold(u) ==>
      s.live == |LiveWorkers(s.workers)| + |LiveDevices(s.devices)| && (s.requestsClosed ==> s.waited)
        && (s.waited ==> s.done && s.live == 0)
  }

  /** Two workers never hold the same command of a device. */
  ghost predicate Apart(s: State, w1: Id, w2: Id) {
    w1 in s.workers && w2 in s.workers && w1 != w2 && (s.workers[w1].Handling? || s.workers[w1].Sending?) ==>
      !WorksOn(s.workers[w2], s.workers[w1].dev, s.workers[w1].cmd)
  }

  ghost predicate Inv(s: State) {
    && !s.panicked && Counted(s)
    && (forall w1, w2 {:trigger Apart(s, w1, w2)} :: Apart(s, w1, w2))
    && (forall w {:trigger WorkerOk(s, w)} | w in s.workers :: WorkerOk(s, w))
    && (forall d {:trigger DeviceOk(s, d)} | d in s.devices :: DeviceOk(s, d))
  }

  lemma InvIsSafe(s: State)
    requires Inv(s)
    ensures Safe(s)
  {
    forall w | w in s.workers && s.workers[w] == Gone ensures s.done { assert WorkerOk(s, w); }
    forall d | d in s.devices ensures DeviceSafe(s, s.devices[d]) {
      assert DeviceOk(s, d);
      var dev := s.devices[d];
      if dev.outClosed || s.waited {
        assert BusyOn(s.workers, d) == {} by {
          if s.waited { AllStopped(s); }
        }
        forall c | c in dev.accepted ensures c in dev.answers || (dev.dropped == Some(c) && !dev.outClosed) {
          assert Accounted(s, d, c);
          forall w | w in s.workers ensures !WorksOn(s.workers[w], d, c) {
            assert w !in BusyOn(s.workers, d);
          }
          if s.waited { AllStopped(s); }
        }
      }
    }
  }

  /** With no goroutine left, every worker is gone and every device has returned. */
  lemma AllStopped(s: State)
    requires Counted(s) && s.waited
    ensures s.done && s.live == 0
    ensures forall w | w in s.workers :: s.workers[w] == Gone
    ensures forall d | d in s.devices :: s.devices[d].phase == Exited
  {
    assert Unfold(true);
    forall w | w in s.workers ensures s.workers[w] == Gone { assert w !in LiveWorkers(s.workers); }
    forall d | d in s.devices ensures s.devices[d].phase == Exited { assert d !in LiveDevices(s.devices); }
  }

  lemma BusyChange(workers: map<Id, Worker>, w: Id, after: Worker, d: Id)
    ensures BusyOn(workers[w := after], d)
      == if Busy(after, d) then BusyOn(workers, d) + {w} else BusyOn(workers, d) - {w}
  {
  }

  /** A worker busy for a device is counted in its outstanding commands. */
  lemma BusyCounts(s: State, w: Id)
    requires Inv(s) && w in s.workers && (s.workers[w].Handling? || s.workers[w].Sending? || s.workers[w].Acking?)
    ensures s.workers[w].dev in s.devices
    ensures s.devices[s.workers[w].dev].outstanding >= 1 && !s.devices[s.workers[w].dev].outClosed
  {
    assert WorkerOk(s, w);
    assert DeviceOk(s, s.workers[w].dev);
    assert w in BusyOn(s.workers, s.workers[w].dev);
  }

  lemma LiveWorker(s: State, w: Id)
    requires Counted(s) && w in s.workers && s.workers[w] != Gone
    ensures s.live > 0 && !s.waited && !s.requestsClosed
  {
    assert Unfold(true);
    assert w in LiveWorkers(s.workers);
  }

  lemma LiveDevice(s: State, d: Id)
    requires Counted(s) && d in s.devices && s.devices[d].phase != Exited
    ensures s.live > 0 && !s.waited && !s.requestsClosed
  {
    assert Unfold(true);
    assert d in LiveDevices(s.devices);
  }

  /** No send on a closed channel, no negative wait group. */
  lemma NoPanic(s: State, s': State, step: Step)
    requires Inv(s) && Next(s, s', step)
    ensures !s'.panicked
  {
    match step
    case OfferClosed(d) => LiveDevice(s, d);
    case Send(w) => BusyCounts(s, w);
    case Ack(w) => BusyCounts(s, w);
    case Retire(w) => LiveWorker(s, w);
    case CloseOutput(d) => LiveDevice(s, d); assert DeviceOk(s, d);
    case Quit(d) => LiveDevice(s, d);
    case Drop(d) => LiveDevice(s, d);
    case _ =>
  }

  lemma DeviceCount(devices: map<Id, Device>, d: Id, dev: Device)
    ensures var before, after := d in devices && devices[d].phase != Exited, dev.phase != Exited;
      |LiveDevices(devices[d := dev])|
        == |LiveDevices(devices)| + (if after && !before then 1 else if before && !after then -1 else 0)
  {
    var after := LiveDevices(devices[d := dev]);
    if dev.phase != Exited {
      assert after == LiveDevices(devices) + {d};
    } else {
      assert after == LiveDevices(devices) - {d};
    }
  }

  lemma WorkerCount(workers: map<Id, Worker>, w: Id, worker: Worker)
    requires w in workers && workers[w] != Gone
    ensures |LiveWorkers(workers[w := worker])| == |LiveWorkers(workers)| - (if worker == Gone then 1 else 0)
  {
    var after := LiveWorkers(workers[w := worker]);
    if worker != Gone {
      assert after == LiveWorkers(workers);
    } else {
      assert after == LiveWorkers(workers) - {w};
    }
  }

  ghost predicate ByWorker(step: Step) {
    step.Offer? || step.Handled? || step.Send? || step.Ack? || step.Retire?
  }

  /** The steps of `Close`. */
  ghost predicate Closing(step: Step) { step.CloseDone? || step.Wait? || step.CloseRequests? }

  /** A device that comes up after `Close` has stopped waiting. */
  ghost predicate Late(s: State, step: Step) { step.DevReady? && s.waited }

  lemma CountWorker(s: State, s': State, step: Step)
    requires Counted(s) && Next(s, s', step) && ByWorker(step)
    ensures Counted(s')
  {
    LiveWorker(s, step.w);
    WorkerCount(s.workers, step.w, s'.workers[step.w]);
    if step.Offer? { DeviceCount(s.devices, step.d, s'.devices[step.d]); }
    if step.Send? || step.Ack? { DeviceCount(s.devices, s.workers[step.w].dev, s'.devices[s.workers[step.w].dev]); }
    assert Unfold(true);
  }

  lemma CountDevice(s: State, s': State, step: Step)
    requires Counted(s) && Next(s, s', step) && !ByWorker(step) && !Closing(step) && !Late(s, step)
    ensures Counted(s')
  {
    assert step.d in s'.devices && s'.workers == s.workers;
    assert s'.devices == s.devices[step.d := s'.devices[step.d]];
    DeviceCount(s.devices, step.d, s'.devices[step.d]);
    if step.d in s.devices && s.devices[step.d].phase != Exited { LiveDevice(s, step.d); }
    assert Unfold(true);
  }

  lemma CountKeeps(s: State, s': State, step: Step)
    requires Counted(s) && Next(s, s', step) && !Late(s, step)
    ensures Counted(s')
  {
    if ByWorker(step) {
      CountWorker(s, s', step);
    } else if !Closing(step) {
      CountDevice(s, s', step);
    } else {
      assert Unfold(true);
    }
  }

  /** A worker is in order if it, its device's commands and what is offered or dropped there stay as they are. */
  lemma SameWorker(s: State, s': State, x: Id)
    requires (s.done ==> s'.done) && x in s.workers && WorkerOk(s, x)
    requires x in s'.workers && s'.workers[x] == s.workers[x]
    requires var worker := s.workers[x];
      worker.Handling? || worker.Sending? || worker.Acking? ==>
        worker.dev in s'.devices
        && (!worker.Acking? ==>
              var dev := s'.devices[worker.dev];
              worker.cmd in dev.accepted && worker.cmd !in dev.answers && dev.phase != Offering(worker.cmd)
                && dev.dropped != Some(worker.cmd))
    ensures WorkerOk(s', x)
  {
  }

  lemma OfferWorker(s: State, s': State, step: Step, x: Id)
    requires Inv(s) && Next(s, s', step) && step.Offer? && x in s'.workers
    ensures WorkerOk(s', x)
  {
    assert WorkerOk(s, x);
    assert DeviceOk(s, step.d);
    if x != step.w { SameWorker(s, s', x); }
  }

  lemma SendWorker(s: State, s': State, step: Step, x: Id)
    requires Inv(s) && Next(s, s', step) && step.Send? && x in s'.workers
    ensures WorkerOk(s', x)
  {
    assert WorkerOk(s, x);
    assert WorkerOk(s, step.w) && Apart(s, x, step.w);
    if x != step.w { SameWorker(s, s', x); }
  }

  lemma MovedWorker(s: State, s': State, step: Step, x: Id)
    requires Inv(s) && Next(s, s', step) && (step.Handled? || step.Ack? || step.Retire?) && x in s'.workers
    ensures WorkerOk(s', x)
  {
    assert WorkerOk(s, x);
    assert WorkerOk(s, step.w);
    if x != step.w { SameWorker(s, s', x); }
  }

  lemma StillWorker(s: State, s': State, step: Step, x: Id)
    requires Inv(s) && Next(s, s', step) && !ByWorker(step) && x in s'.workers
    ensures WorkerOk(s', x)
  {
    StillWorkers(s, s', step);
    assert WorkerOk(s, x);
    StillOk(s, s', step, x);
  }

  lemma StillWorkers(s: State, s': State, step: Step)
    requires Next(s, s', step) && !ByWorker(step)
    ensures s'.workers == s.workers && (s.done ==> s'.done)
  {
  }

  lemma StillOk(s: State, s': State, step: Step, x: Id)
    requires Next(s, s', step) && !ByWorker(step) && x in s.workers && s'.workers == s.workers && (s.done ==> s'.done)
    requires WorkerOk(s, x) == true
    ensures WorkerOk(s', x) == true
  {
  }

  lemma WorkersKeep(s: State, s': State, step: Step, x: Id)
    requires Inv(s) && Next(s, s', step) && x in s'.workers
    ensures WorkerOk(s', x)
  {
    if step.Offer? {
      OfferWorker(s, s', step, x);
    } else if step.Send? {
      SendWorker(s, s', step, x);
    } else if ByWorker(step) {
      MovedWorker(s, s', step, x);
    } else {
      StillWorker(s, s', step, x);
    }
  }

  lemma ApartKeeps(s: State, s': State, step: Step, w1: Id, w2: Id)
    requires Inv(s) && Next(s, s', step)
    ensures Apart(s', w1, w2)
  {
    assert Apart(s, w1, w2);
    if w1 in s.workers && w2 in s.workers { assert WorkerOk(s, w1) && WorkerOk(s, w2); }
  }

  /** A device keeps its invariant when neither it nor the workers busy for it change. */
  lemma OtherDevice(s: State, s': State, d: Id, w: Id)
    requires d in s.devices && DeviceOk(s, d) && d in s'.devices && s'.devices[d] == s.devices[d]
    requires (s.done ==> s'.done)
    requires s'.workers == s.workers
      || (w in s.workers && w in s'.workers && s'.workers == s.workers[w := s'.workers[w]]
          && !Busy(s.workers[w], d) && !Busy(s'.workers[w], d))
    ensures DeviceOk(s', d)
  {
    assert BusyOn(s'.workers, d) == BusyOn(s.workers, d);
    forall c {:trigger Accounted(s', d, c)} ensures Accounted(s', d, c) {
      assert Accounted(s, d, c);
      if w :| w in s.workers && WorksOn(s.workers[w], d, c) { assert WorksOn(s'.workers[w], d, c); }
    }
  }

  /** The steps of a device on its own. */
  lemma DeviceAlone(s: State, s': State, step: Step)
    requires Inv(s) && Next(s, s', step)
    requires step.Receive? || step.CloseInput? || step.SeeClosed? || step.CloseOutput? || step.Quit? || step.Drop?
    ensures step.d in s'.devices && DeviceOk(s', step.d)
  {
    var d := step.d;
    assert DeviceOk(s, d);
    forall c {:trigger Accounted(s', d, c)} ensures Accounted(s', d, c) {
      assert Accounted(s, d, c);
    }
  }

  /** Accounts that look at a device's commands and at one worker only. */
  lemma AccountKept(s: State, s': State, d: Id, w: Id, c: Cmd)
    requires d in s.devices && d in s'.devices && Accounted(s, d, c)
    requires w in s.workers && w in s'.workers && s'.workers == s.workers[w := s'.workers[w]]
    requires WorksOn(s.workers[w], d, c) ==> WorksOn(s'.workers[w], d, c) || c in s'.devices[d].answers
    requires var dev, dev' := s.devices[d], s'.devices[d];
      dev'.accepted == dev.accepted && dev'.dropped == dev.dropped && (forall a | a in dev.answers :: a in dev'.answers)
      && (dev.phase == Offering(c) ==> dev'.phase == Offering(c) || WorksOn(s'.workers[w], d, c))
    ensures Accounted(s', d, c)
  {
    if c in s.devices[d].accepted && s.devices[d].phase != Offering(c) {
      if x :| x in s.workers && WorksOn(s.workers[x], d, c) {
        if x != w { assert WorksOn(s'.workers[x], d, c); }
      }
    }
  }

  /** A worker takes over the command a device offers. */
  lemma OfferKeeps(s: State, s': State, d: Id, w: Id, cmd: Cmd)
    requires d in s.devices && DeviceOk(s, d) && s.devices[d].phase == Offering(cmd) && w in s.workers
    requires s.workers[w] == Idle
    requires s' == SetWorker(SetDevice(s, d, s.devices[d].(phase := Selecting)), w, Handling(d, cmd))
    ensures DeviceOk(s', d)
  {
    BusyChange(s.workers, w, s'.workers[w], d);
    assert w !in BusyOn(s.workers, d);
    forall c {:trigger Accounted(s', d, c)} ensures Accounted(s', d, c) {
      assert Accounted(s, d, c);
      AccountKept(s, s', d, w, c);
    }
  }

  /** A worker moves on with a command: it has handled, sent or acknowledged it. */
  lemma WorkerMoves(s: State, s': State, w: Id, d: Id, worker: Worker, dev: Device)
    requires d in s.devices && DeviceOk(s, d) && w in s.workers && WorkerOk(s, w) && Busy(s.workers[w], d)
    requires s'.workers == s.workers[w := worker] && s'.devices == s.devices[d := dev] && s'.done == s.done
    requires var was, cmd := s.devices[d], s.workers[w].cmd;
      (s.workers[w].Handling? && worker == Sending(d, cmd) && dev == was)
      || (s.workers[w].Sending? && worker == Acking(d, cmd) && dev == was.(answers := was.answers + [cmd]))
      || (s.workers[w].Acking? && worker == Idle && dev == was.(outstanding := was.outstanding - 1))
    ensures DeviceOk(s', d)
  {
    assert w in BusyOn(s.workers, d);
    BusyChange(s.workers, w, worker, d);
    if worker == Idle {
      assert |BusyOn(s.workers, d) - {w}| == |BusyOn(s.workers, d)| - 1;
    } else {
      assert BusyOn(s.workers, d) + {w} == BusyOn(s.workers, d);
    }
    forall c {:trigger Accounted(s', d, c)} ensures Accounted(s', d, c) {
      assert Accounted(s, d, c);
      AccountKept(s, s', d, w, c);
    }
  }

  /** The steps of workers. */
  lemma WorkerStepKeeps(s: State, s': State, step: Step, x: Id)
    requires Inv(s) && Next(s, s', step) && ByWorker(step) && !step.Offer? && x in s'.devices
    ensures DeviceOk(s', x)
  {
    var w := step.w;
    assert DeviceOk(s, x) && WorkerOk(s, w);
    if !step.Retire? && x == s.workers[w].dev {
      assert s'.devices == s.devices[x := s'.devices[x]];
      WorkerMoves(s, s', w, x, s'.workers[w], s'.devices[x]);
    } else {
      OtherDevice(s, s', x, w);
    }
  }

  lemma DevicesKeep(s: State, s': State, step: Step, x: Id)
    requires Inv(s) && Next(s, s', step) && x in s'.devices
    ensures DeviceOk(s', x)
  {
    if step.DevReady? && x == step.d {
      NewDeviceOk(s, s', x);
    } else if step.Offer? {
      assert DeviceOk(s, x);
      if x == step.d { OfferKeeps(s, s', x, step.w, s.devices[x].phase.cmd); } else { OtherDevice(s, s', x, step.w); }
    } else if ByWorker(step) {
      WorkerStepKeeps(s, s', step, x);
    } else if Closing(step) || step.OfferClosed? || x != step.d {
      assert DeviceOk(s, x);
      OtherDevice(s, s', x, 0);
    } else {
      DeviceAlone(s, s', step);
    }
  }

  lemma NewDeviceOk(s: State, s': State, x: Id)
    requires Inv(s) && x !in s.devices && s' == NewDevice(s, x)
    ensures DeviceOk(s', x)
  {
    forall w | w in s.workers ensures !Busy(s.workers[w], x) { assert WorkerOk(s, w); }
    assert BusyOn(s'.workers, x) == {};
    forall c {:trigger Accounted(s', x, c)} ensures Accounted(s', x, c) {}
  }

  lemma StepKeepsInv(s: State, s': State, step: Step)
    requires Inv(s) && Next(s, s', step) && !Late(s, step)
    ensures Inv(s')
  {
    NoPanic(s, s', step);
    CountKeeps(s, s', step);
    forall w1, w2 {:trigger Apart(s', w1, w2)} ensures Apart(s', w1, w2) { ApartKeeps(s, s', step, w1, w2); }
    forall w {:trigger WorkerOk(s', w)} | w in s'.workers ensures WorkerOk(s', w) { WorkersKeep(s, s', step, w); }
    forall d {:trigger DeviceOk(s', d)} | d in s'.devices ensures DeviceOk(s', d) { DevicesKeep(s, s', step, d); }
  }

  /** A path of steps from `s` on. */
  ghost predicate Path(s: State, states: seq<State>, steps: seq<Step>) {
    && |states| == |steps| + 1 && states[0] == s
    && forall i {:trigger steps[i]} | 0 <= i < |steps| :: Next(states[i], states[i + 1], steps[i])
  }

  /** None of the steps from `from` up to `to` is a late device. */
  ghost predicate Timely(states: seq<State>, steps: seq<Step>, from: nat, to: nat)
    requires |states| == |steps| + 1 && to <= |steps|
  {
    forall i {:trigger steps[i]} | from <= i < to :: !Late(states[i], steps[i])
  }

  lemma InitInv(s: State)
    requires Init(s)
    ensures Inv(s)
  {
    assert LiveWorkers(s.workers) == s.workers.Keys && LiveDevices(s.devices) == {};
  }

  lemma {:induction false} PathKeepsInv(s: State, states: seq<State>, steps: seq<Step>, i: nat)
    requires Inv(s) && Path(s, states, steps) && i < |states| && Timely(states, steps, 0, i)
    ensures Inv(states[i])
  {
    if i > 0 {
      PathKeepsInv(s, states, steps, i - 1);
      assert !Late(states[i - 1], steps[i - 1]);
      StepKeepsInv(states[i - 1], states[i], steps[i - 1]);
    }
  }

  /** Over every run in which no device comes up late: no panic, exactly one answer per accepted command before
    the output closes, and at most one command per device dropped at shutdown. */
  lemma RunsAreSafe(states: seq<State>, steps: seq<Step>, i: nat)
    requires |states| > 0 && Init(states[0]) && Path(states[0], states, steps)
    requires i < |states| && Timely(states, steps, 0, i)
    ensures Inv(states[i]) && Safe(states[i])
  {
    InitInv(states[0]);
    PathKeepsInv(states[0], states, steps, i);
    InvIsSafe(states[i]);
  }

  // ----- what has happened -----

  /** The commands answered to a device in the first `i` steps, in their order. */
  ghost function Sent(states: seq<State>, steps: seq<Step>, i: nat, d: Id): seq<Cmd>
    requires i <= |steps| < |states|
  {
    if i == 0 then []
    else Sent(states, steps, i - 1, d) + Answered(states[i - 1], steps[i - 1], d)
  }

  ghost predicate Happened(steps: seq<Step>, i: nat, step: Step) {
    exists j :: 0 <= j < i <= |steps| && steps[j] == step
  }

  lemma HappenedNext(steps: seq<Step>, i: nat, step: Step)
    requires 0 < i <= |steps|
    ensures Happened(steps, i, step) <==> Happened(steps, i - 1, step) || steps[i - 1] == step
  {
    if Happened(steps, i, step) {
      var j :| 0 <= j < i && steps[j] == step;
      if j < i - 1 { assert Happened(steps, i - 1, step); }
    }
    if Happened(steps, i - 1, step) {
      var j :| 0 <= j < i - 1 && steps[j] == step;
      assert steps[j] == step;
    }
  }

  /** What a device's record says of the steps so far. */
  ghost predicate Told(states: seq<State>, steps: seq<Step>, i: nat, d: Id)
    requires i <= |steps| < |states| && d in states[i].devices
  {
    var dev := states[i].devices[d];
    && dev.answers == Sent(states, steps, i, d)
    && (forall c {:trigger Receive(d, c)} :: c in dev.accepted <==> Happened(steps, i, Receive(d, c)))
    && (dev.inClosed <==> Happened(steps, i, CloseInput(d))) && (dev.outClosed <==> Happened(steps, i, CloseOutput(d)))
    && (dev.phase.Exited? <==>
      Happened(steps, i, CloseOutput(d)) || Happened(steps, i, Quit(d)) || Happened(steps, i, Drop(d)))
    && (dev.dropped.Some? <==> Happened(steps, i, Drop(d)))
  }

  /** Nothing has happened to a device that is not there. */
  ghost predicate Unheard(steps: seq<Step>, i: nat, d: Id) {
    forall step {:trigger Happened(steps, i, step)} | OfDevice(step, d) :: !Happened(steps, i, step)
  }

  ghost predicate OfDevice(step: Step, d: Id) {
    step == CloseInput(d) || step == CloseOutput(d) || step == Quit(d) || step == Drop(d)
    || (step.Receive? && step.d == d)
  }

  ghost predicate ByDevice(step: Step) {
    step.Receive? || step.CloseInput? || step.SeeClosed? || step.CloseOutput? || step.Quit? || step.Drop? || step.Offer?
    || step.OfferClosed?
  }

  /** What one step does to a device's record. */
  ghost predicate Records(s: State, step: Step, d: Id, dev: Device, dev': Device) {
    && (dev'.inClosed <==> dev.inClosed || step == CloseInput(d))
    && (dev'.outClosed <==> dev.outClosed || step == CloseOutput(d))
    && (dev'.phase.Exited? <==> dev.phase.Exited? || step == CloseOutput(d) || step == Quit(d) || step == Drop(d))
    && (dev'.dropped.Some? <==> dev.dropped.Some? || step == Drop(d))
    && dev'.accepted == dev.accepted + (if step.Receive? && step.d == d then {step.cmd} else {})
    && dev'.answers == dev.answers + Answered(s, step, d)
  }

  lemma OwnRecord(s: State, s': State, step: Step, d: Id)
    requires d in s.devices && ByDevice(step) && step.d == d && DeviceStep(s, step, d, s.devices[d]) == Some(s')
    ensures d in s'.devices && Records(s, step, d, s.devices[d], s'.devices[d])
  {
  }

  lemma OtherRecord(s: State, s': State, step: Step, d: Id)
    requires d in s.devices && ByDevice(step) && step.d in s.devices && step.d != d
    requires DeviceStep(s, step, step.d, s.devices[step.d]) == Some(s')
    ensures d in s'.devices && s'.devices[d] == s.devices[d]
  {
  }

  lemma WorkerRecord(s: State, s': State, step: Step, d: Id)
    requires d in s.devices && (step.Handled? || step.Send? || step.Ack? || step.Retire?) && step.w in s.workers
    requires WorkerStep(s, step, step.w, s.workers[step.w]) == Some(s')
    ensures d in s'.devices && Records(s, step, d, s.devices[d], s'.devices[d])
  {
  }

  lemma RecordChanges(s: State, s': State, step: Step, d: Id)
    requires Next(s, s', step) && d in s.devices
    ensures d in s'.devices && Records(s, step, d, s.devices[d], s'.devices[d]) == true
  {
    if ByDevice(step) {
      if step.d == d { OwnRecord(s, s', step, d); } else { OtherRecord(s, s', step, d); }
    } else if step.Handled? || step.Send? || step.Ack? || step.Retire? {
      WorkerRecord(s, s', step, d);
    }
  }

  ghost function Answered(s: State, step: Step, d: Id): seq<Cmd> {
    if step.Send? && step.w in s.workers && s.workers[step.w].Sending? && s.workers[step.w].dev == d
    then [s.workers[step.w].cmd] else []
  }

  lemma ToldNext(states: seq<State>, steps: seq<Step>, i: nat, d: Id)
    requires 0 < i <= |steps| < |states| && Next(states[i - 1], states[i], steps[i - 1])
    requires d in states[i - 1].devices && Told(states, steps, i - 1, d)
    ensures d in states[i].devices && Told(states, steps, i, d)
  {
    RecordChanges(states[i - 1], states[i], steps[i - 1], d);
    HappenedNext(steps, i, CloseInput(d));
    HappenedNext(steps, i, CloseOutput(d));
    HappenedNext(steps, i, Quit(d));
    HappenedNext(steps, i, Drop(d));
    var dev := states[i].devices[d];
    forall c {:trigger Receive(d, c)} ensures c in dev.accepted <==> Happened(steps, i, Receive(d, c)) {
      HappenedNext(steps, i, Receive(d, c));
    }
  }

  lemma FirstRecord(s: State, s': State, step: Step, d: Id)
    requires Inv(s) && Next(s, s', step) && d !in s.devices
    ensures !OfDevice(step, d) && Answered(s, step, d) == []
    ensures d in s'.devices ==> s'.devices[d] == Device(Selecting, 0, false, false, {}, [], None)
  {
    if step.Send? && step.w in s.workers { assert WorkerOk(s, step.w); }
  }

  lemma ToldFirst(states: seq<State>, steps: seq<Step>, i: nat, d: Id)
    requires 0 < i <= |steps| < |states| && Next(states[i - 1], states[i], steps[i - 1])
    requires d !in states[i - 1].devices && Unheard(steps, i - 1, d) && Sent(states, steps, i - 1, d) == []
    requires Inv(states[i - 1])
    ensures Unheard(steps, i, d) && Sent(states, steps, i, d) == []
    ensures d in states[i].devices ==> Told(states, steps, i, d)
  {
    FirstRecord(states[i - 1], states[i], steps[i - 1], d);
    forall any {:trigger Happened(steps, i, any)} | OfDevice(any, d) ensures !Happened(steps, i, any) {
      HappenedNext(steps, i, any);
    }
    if d in states[i].devices {
      assert OfDevice(CloseInput(d), d) && OfDevice(CloseOutput(d), d) && OfDevice(Quit(d), d) && OfDevice(Drop(d), d);
      forall c {:trigger Receive(d, c)} ensures !Happened(steps, i, Receive(d, c)) {
        assert OfDevice(Receive(d, c), d);
      }
    }
  }

  /** In every run: what was accepted, answered in which order, dropped and closed is exactly what the steps did. */
  lemma {:induction false} DevicesTold(states: seq<State>, steps: seq<Step>, i: nat, d: Id)
    requires |states| > 0 && Init(states[0]) && Path(states[0], states, steps)
    requires i < |states| && Timely(states, steps, 0, i)
    ensures HistoryOk(states, steps, i, d) == true
  {
    if i > 0 {
      assert Next(states[i - 1], states[i], steps[i - 1]);
      DevicesTold(states, steps, i - 1, d);
      RunsAreSafe(states, steps, i - 1);
      HistoryNext(states, steps, i, d);
    }
  }

  ghost predicate HistoryOk(states: seq<State>, steps: seq<Step>, i: nat, d: Id)
    requires i <= |steps| < |states|
  {
    if d in states[i].devices then Told(states, steps, i, d)
    else Unheard(steps, i, d) && Sent(states, steps, i, d) == []
  }

  lemma HistoryNext(states: seq<State>, steps: seq<Step>, i: nat, d: Id)
    requires 0 < i <= |steps| < |states| && Next(states[i - 1], states[i], steps[i - 1]) && Inv(states[i - 1])
    requires HistoryOk(states, steps, i - 1, d) == true
    ensures HistoryOk(states, steps, i, d) == true
  {
    if d in states[i - 1].devices { ToldNext(states, steps, i, d); } else { ToldFirst(states, steps, i, d); }
  }

  /** In every run, once a device's output was closed, it stays closed, and every command it ever took was answered. */
  lemma ClosedAndAnswered(states: seq<State>, steps: seq<Step>, i: nat, d: Id)
    requires |states| > 0 && Init(states[0]) && Path(states[0], states, steps)
    requires i < |states| && Timely(states, steps, 0, i) && Happened(steps, i, CloseOutput(d))
    ensures d in states[i].devices && states[i].devices[d].outClosed
    ensures forall c | Happened(steps, i, Receive(d, c)) :: c in Sent(states, steps, i, d)
  {
    DevicesTold(states, steps, i, d);
    RunsAreSafe(states, steps, i);
    if d !in states[i].devices { assert OfDevice(CloseOutput(d), d); }
    forall c | Happened(steps, i, Receive(d, c)) ensures c in Sent(states, steps, i, d) {
      assert c in states[i].devices[d].accepted;
    }
  }

  // ----- nobody waits for ever -----

  /** There is something left to do. */
  ghost predicate Unfinished(s: State, d: Id)
    requires d in s.devices
  {
    var dev := s.devices[d];
    !dev.phase.Exited?
    && (dev.phase.Offering? || dev.inClosed || s.done || exists c :: c in dev.accepted && c !in dev.answers)
  }

  /** A step of a worker, or of a device, on its own. */
  ghost predicate Working(step: Step) {
    step.Offer? || step.Handled? || step.Send? || step.Ack? || step.Retire? || step.SeeClosed? || step.CloseOutput?
    || step.Quit? || step.Drop?
  }

  lemma BusyGoesOn(s: State, w: Id) returns (step: Step)
    requires Inv(s) && w in s.workers && s.workers[w] != Gone && (s.workers[w] != Idle || s.done)
    ensures Working(step) && After(s, step).Some?
  {
    assert WorkerOk(s, w);
    match s.workers[w]
    case Idle => step := Retire(w);
    case Handling(_, _) => step := Handled(w);
    case Sending(_, _) => step := Send(w);
    case Acking(_, _) => step := Ack(w);
  }

  lemma DeviceGoesOn(s: State, d: Id) returns (step: Step)
    requires Inv(s) && d in s.devices && Unfinished(s, d) && (s.done || s.workers != map[])
    ensures Working(step) && After(s, step).Some?
  {
    assert DeviceOk(s, d);
    var dev := s.devices[d];
    match dev.phase
    case Selecting =>
      if s.done {
        step := Quit(d);
      } else if dev.inClosed {
        step := SeeClosed(d);
      } else {
        var c :| c in dev.accepted && c !in dev.answers;
        assert Accounted(s, d, c);
        var w :| w in s.workers && WorksOn(s.workers[w], d, c);
        step := BusyGoesOn(s, w);
      }
    case Offering(cmd) =>
      if s.done {
        step := Drop(d);
      } else {
        var w :| w in s.workers;
        assert WorkerOk(s, w);
        if s.workers[w] == Idle { NotClosed(s); step := Offer(d, w); } else { step := BusyGoesOn(s, w); }
      }
    case Draining =>
      if dev.outstanding == 0 {
        step := CloseOutput(d);
      } else {
        var w :| w in BusyOn(s.workers, d);
        step := BusyGoesOn(s, w);
      }
  }

  lemma NotClosed(s: State)
    requires Inv(s) && !s.done
    ensures !s.requestsClosed
  {
    assert Unfold(true);
  }

  /** As long as a device has anything left to do, or `Close` waits for a goroutine, some worker or device can go on:
    no command and no shutdown is ever stuck. */
  lemma SomeoneGoesOn(s: State) returns (step: Step)
    requires Inv(s) && (s.done || s.workers != map[])
    requires (exists d :: d in s.devices && Unfinished(s, d)) || (s.done && s.live > 0)
    ensures Working(step) && After(s, step).Some?
  {
    if d :| d in s.devices && Unfinished(s, d) {
      step := DeviceGoesOn(s, d);
    } else {
      assert Unfold(true);
      forall d | d in s.devices ensures d !in LiveDevices(s.devices) { assert !Unfinished(s, d); }
      assert LiveDevices(s.devices) == {};
      var w :| w in LiveWorkers(s.workers);
      step := BusyGoesOn(s, w);
    }
  }

  /** What callers can do: hand in a command, close a device's input, and close the pool, which ends once all
    goroutines have. */
  lemma CallersGoOn(s: State, d: Id, cmd: Cmd)
    requires d in s.devices
    ensures var dev := s.devices[d];
      (!dev.inClosed <==> After(s, CloseInput(d)).Some?)
      && (!dev.inClosed && dev.phase.Selecting? && cmd !in dev.accepted <==> After(s, Receive(d, cmd)).Some?)
    ensures (!s.done <==> After(s, CloseDone).Some?)
      && (s.done && s.live == 0 && !s.waited <==> After(s, Wait).Some?)
      && (s.waited && !s.requestsClosed <==> After(s, CloseRequests).Some?)
  {
  }

  /** How many steps of its own each goroutine may have left, with what it hands on. */
  ghost function DeviceWork(dev: Device): nat {
    match dev.phase
    case Selecting => 2
    case Offering(_) => 6
    case Draining => 1
    case Exited => 0
  }

  ghost function WorkerWork(worker: Worker): nat {
    match worker
    case Idle => 1
    case Handling(_, _) => 4
    case Sending(_, _) => 3
    case Acking(_, _) => 2
    case Gone => 0
  }

  ghost function Work(s: State): nat { MapSum(s.devices, DeviceWork) + MapSum(s.workers, WorkerWork) }

  lemma StepWorks(s: State, s': State, step: Step)
    requires Next(s, s', step) && Working(step)
    ensures Work(s') < Work(s)
  {
    if step.Handled? || step.Send? || step.Ack? || step.Retire? {
      WorkerWorks(s, s', step);
    } else {
      DeviceWorks(s, s', step);
    }
  }

  lemma WorkerWorks(s: State, s': State, step: Step)
    requires Next(s, s', step) && (step.Handled? || step.Send? || step.Ack? || step.Retire?)
    ensures Work(s') < Work(s)
  {
    MapSumSet(s.workers, WorkerWork, step.w, s'.workers[step.w]);
    if step.Send? || step.Ack? {
      var d := s.workers[step.w].dev;
      MapSumSet(s.devices, DeviceWork, d, s'.devices[d]);
    }
  }

  lemma DeviceWorks(s: State, s': State, step: Step)
    requires Next(s, s', step) && Working(step) && !(step.Handled? || step.Send? || step.Ack? || step.Retire?)
    ensures Work(s') < Work(s)
  {
    MapSumSet(s.devices, DeviceWork, step.d, s'.devices[step.d]);
    if step.Offer? {
      MapSumSet(s.workers, WorkerWork, step.w, s'.workers[step.w]);
    }
  }

  ghost predicate AllWorking(steps: seq<Step>) { forall i {:trigger steps[i]} | 0 <= i < |steps| :: Working(steps[i]) }

  lemma {:induction false} WorkGoesDown(s: State, states: seq<State>, steps: seq<Step>, i: nat)
    requires Inv(s) && Path(s, states, steps) && AllWorking(steps) && i <= |steps|
    ensures Work(states[i]) + i <= Work(s) && Inv(states[i]) == true && states[i].done == s.done
    ensures states[i].workers.Keys == s.workers.Keys
  {
    if i > 0 {
      WorkGoesDown(s, states, steps, i - 1);
      assert Working(steps[i - 1]);
      OneWorked(states[i - 1], states[i], steps[i - 1]);
    }
  }

  lemma OneWorked(s: State, s': State, step: Step)
    requires Inv(s) == true && Next(s, s', step) == true && Working(step)
    ensures Work(s') < Work(s) && Inv(s') == true && s'.done == s.done && s'.workers.Keys == s.workers.Keys
  {
    StepWorks(s, s', step);
    StepKeepsInv(s, s', step);
    SamePool(s, s', step);
  }

  lemma SamePool(s: State, s': State, step: Step)
    requires Next(s, s', step) && Working(step)
    ensures s'.done == s.done && s'.workers.Keys == s.workers.Keys
  {
    if step.Handled? || step.Send? || step.Ack? || step.Retire? {
      SamePoolBut(s, s', step, step.w);
    } else if step.Offer? {
      assert s'.workers == s.workers[step.w := s'.workers[step.w]];
    }
  }

  lemma SamePoolBut(s: State, s': State, step: Step, w: Id)
    requires w in s.workers && WorkerStep(s, step, w, s.workers[w]) == Some(s')
    ensures s'.done == s.done && s'.workers.Keys == s.workers.Keys
  {
    assert w in s'.workers && s'.workers == s.workers[w := s'.workers[w]];
  }

  /** Left alone, workers and devices come to rest after a bounded number of steps, in whatever order they take them.
    Then every command taken is answered, or dropped because of the shutdown; every device whose input is closed
    has closed its output, or has gone because of the shutdown; and a `Close` under way has nobody to wait for. */
  lemma WorkIsDone(s: State, states: seq<State>, steps: seq<Step>)
    requires Inv(s) && (s.done || s.workers != map[]) && Path(s, states, steps) && AllWorking(steps)
    ensures |steps| <= Work(s)
    ensures (forall step | Working(step) :: After(states[|steps|], step) == None) ==> AtRest(states[|steps|])
  {
    var end := states[|steps|];
    WorkGoesDown(s, states, steps, |steps|);
    if forall step | Working(step) :: After(end, step) == None {
      if (exists d :: d in end.devices && Unfinished(end, d)) || (end.done && end.live > 0) {
        var step := SomeoneGoesOn(end);
      }
      RestIs(end);
    }
  }

  lemma RestIs(s: State)
    requires Inv(s) && !(s.done && s.live > 0) && forall d | d in s.devices :: !Unfinished(s, d)
    ensures AtRest(s)
  {
    forall d | d in s.devices ensures DeviceAtRest(s.devices[d], s.done) {
      assert !Unfinished(s, d) && DeviceOk(s, d);
      forall c | c in s.devices[d].accepted && c !in s.devices[d].answers ensures s.devices[d].dropped == Some(c) {
        assert Accounted(s, d, c);
        if w :| w in s.workers && WorksOn(s.workers[w], d, c) {
          LiveWorker(s, w);
          BusyCounts(s, w);
        }
      }
    }
  }

  ghost predicate AtRest(s: State) {
    && (s.done ==> s.live <= 0)
    && forall d | d in s.devices :: DeviceAtRest(s.devices[d], s.done)
  }

  ghost predicate DeviceAtRest(dev: Device, done: bool) {
    && (forall c | c in dev.accepted :: c in dev.answers || dev.dropped == Some(c))
    && (dev.inClosed && !done ==> dev.outClosed)
    && (done ==> dev.phase.Exited?)
  }

  // ----- devices that come up during and after `Close` -----

  /** Whatever happens after the device comes up, other devices being in time: nothing panics. */
  ghost predicate Harmless(s: State, d: Id) {
    forall states: seq<State>, steps: seq<Step> {:trigger Path(s, states, steps)} |
      Path(s, states, steps) && steps != [] && steps[0] == DevReady(d) && Timely(states, steps, 1, |steps|) ::
      !states[|steps|].panicked
  }

  /** A late device can take a command and send it on the closed channel. */
  lemma LateDevicePanics(s: State, d: Id) returns (states: seq<State>, steps: seq<Step>)
    requires Inv(s) && s.waited && d !in s.devices
    ensures Path(s, states, steps) && steps != [] && steps[0] == DevReady(d) && Timely(states, steps, 1, |steps|)
    ensures states[|steps|].panicked
  {
    var up := NewDevice(s, d);
    var closed := up.(requestsClosed := true);
    var offering :=
      SetDevice(closed, d, closed.devices[d].(phase := Offering(0), outstanding := 1, accepted := {} + {0}));
    var end := offering.(panicked := true);
    if s.requestsClosed {
      assert closed == up;
      states, steps := [s, up, offering, end], [DevReady(d), Receive(d, 0), OfferClosed(d)];
    } else {
      states, steps := [s, up, closed, offering, end], [DevReady(d), CloseRequests, Receive(d, 0), OfferClosed(d)];
    }
  }

  /** A device may come up at any time, also during `Close`, exactly until `Close` has stopped waiting. */
  lemma HarmlessUntilWaited(s: State, d: Id)
    requires Inv(s) && d !in s.devices
    ensures Harmless(s, d) <==> !s.waited
  {
    if s.waited {
      var states, steps := LateDevicePanics(s, d);
    } else {
      forall states: seq<State>, steps: seq<Step> {:trigger Path(s, states, steps)} |
        Path(s, states, steps) && steps != [] && steps[0] == DevReady(d) && Timely(states, steps, 1, |steps|)
        ensures !states[|steps|].panicked
      {
        assert !Late(states[0], steps[0]);
        PathKeepsInv(s, states, steps, |steps|);
      }
    }
  }

  /** A whole run of a pool with one worker that ends in a panic. */
  lemma PanickingRun() returns (states: seq<State>, steps: seq<Step>)
    ensures |states| > 0 && Init(states[0]) && Path(states[0], states, steps) && states[|steps|].panicked
  {
    var start := State(map[0 := Idle], map[], false, false, false, 1, false);
    var done := start.(done := true);
    var retired := SetWorker(done, 0, Gone).(live := 0);
    var waited := retired.(waited := true);
    InitInv(start);
    StepKeepsInv(start, done, CloseDone);
    StepKeepsInv(done, retired, Retire(0));
    StepKeepsInv(retired, waited, Wait);
    var rest, more := LateDevicePanics(waited, 0);
    states, steps := [start, done, retired] + rest, [CloseDone, Retire(0), Wait] + more;
    forall i {:trigger steps[i]} | 0 <= i < |steps| ensures Next(states[i], states[i + 1], steps[i]) {
      if i >= 3 { assert steps[i] == more[i - 3] && states[i] == rest[i - 3] && states[i + 1] == rest[i - 2]; }
    }
  }
}
