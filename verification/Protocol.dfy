/** One I/O thread, its worker pool and the stopping main thread as a labelled
    transition system.

    Every step makes at most one access to shared state (a mutex-protected
    queue section, one atomic counter operation, one eventfd read or write);
    the private work of a thread is folded into a neighbouring step.  Steps of
    different threads interleave freely.  `Next` is a function: all choice,
    including the kernel's, is in the label. */
module Protocol {

  import opened Common
  import opened Reactor
  import opened ThreadPool
  import opened ResponseQueue

  /** What is left of a read event after `on_read`: EPOLLERR/EPOLLHUP and EPOLLRDHUP. */
  datatype Tail = Tail(fd: int, err: bool, rdhup: bool)

  datatype IoPc =
    | Setup                                   // before set_event_fd
    | Registering                             // before the eventfd joins the epoll set
    | LoopTest                                // while (m_running)
    | Waiting                                 // in epoll_wait
    | Accepting                               // the accept4 loop
    | ReadSignal                              // before read(m_event_fd)
    | Draining(stopping: bool)                // before drain_to
    | Batch(items: seq<Job>, stopping: bool)  // the response_batch loop
    | Pushing(job: Job, tail: Tail)           // before m_response_queue->push
    | Signalling(tail: Tail)                  // push done, eventfd not yet written
    | Counting(job: Job, tail: Tail)          // before m_unfinished_tasks.fetch_add
    | Enqueuing(job: Job, tail: Tail)         // before m_global_queue.push
    | RollingBack(job: Job, tail: Tail)       // push threw, before fetch_sub
    | StopCount                               // drain loop: before reading the counter
    | StopSize                                // counter was 0, before reading the size
    | StopPoll                                // drain loop: epoll_wait(10 ms)
    | Finished                                // drain loop left through its condition
    | Aborted                                 // epoll_wait failed
    | Crashed                                 // read a moved-from parser

  datatype StopPc = NotAsked | FlagCleared | QueueStopped | StopDone

  datatype State = State(
    io: Io,
    pc: IoPc,
    pool: Pool,
    queue: Queue,
    stopper: StopPc,
    now: nat)

  datatype Step =
    | SetEventFd
    | RegisterEventFd
    | TestRunning
    | SpuriousSignal
    | TakeSignal
    | ReadEventFd
    | Drain
    | HandleItem(outcome: WriteOutcome, rearmed: bool)
    | EndBatch
    | AcceptEvent
    | AcceptOne(fd: int, registered: bool)
    | EndAccept
    | TimerTick
    | Interrupted
    | ReadEvent(fd: int, readable: bool, err: bool, rdhup: bool, result: ReadOutcome)
    | WriteEvent(fd: int, writable: bool, err: bool, rdhup: bool, outcome: WriteOutcome, rearmed: bool)
    | PushResponse
    | SignalResponse
    | CountTask
    | EnqueueTask
    | RollBackTask
    | TestCounter
    | TestSize
    | StopIdle
    | StopSignal
    | StopEvent(fd: int, readable: bool, writable: bool, err: bool, rdhup: bool, outcome: WriteOutcome, rearmed: bool)
    | PollFails
    | PopTask(w: nat)
    | FinishTask(w: nat)
    | NotifyIo(w: nat)
    | SettleTask(w: nat)
    | LeavePool(w: nat)
    | ClearRunning
    | StopQueue
    | NotifyStop
    | StopPool
    | Tick(now: nat)

  /** Steps of the pool's threads. */
  predicate IsWorkerStep(step: Step) {
    step.PopTask? || step.FinishTask? || step.NotifyIo? || step.SettleTask? || step.LeavePool?
  }

  /** Steps whose work is private to the I/O thread: what the kernel reports, and the
      handling of one drained response. */
  predicate IsHandlerStep(step: Step) {
    step.HandleItem? || step.AcceptOne? || step.TimerTick? || step.ReadEvent? || step.WriteEvent? || step.StopEvent?
  }

  /** Steps of the main thread, and of the clock. */
  predicate IsOutsideStep(step: Step) {
    step.ClearRunning? || step.StopQueue? || step.NotifyStop? || step.StopPool? || step.Tick?
  }

  function Start(capacity: nat, workers: nat, now: nat): State {
    State(EMPTY_IO, Setup, NewPool(capacity, workers), EMPTY_QUEUE, NotAsked, now)
  }

  predicate StillRunning(s: State) {
    s.stopper == NotAsked
  }

  /** The descriptor is registered and its one-shot mask admits the event. */
  predicate Deliverable(io: Io, fd: int, readable: bool, writable: bool, err: bool, rdhup: bool) {
    && fd in io.armed && io.armed[fd] != Disarmed
    && (readable ==> io.armed[fd] == ForRead)
    && (writable ==> io.armed[fd] == ForWrite)
    && (readable || writable || err || rdhup)
  }

  predicate Enabled(s: State, step: Step) {
    match step
    case SetEventFd => s.pc == Setup
    case RegisterEventFd => s.pc == Registering
    case TestRunning => s.pc == LoopTest
    case SpuriousSignal => s.pc == Waiting && s.queue.edge && s.queue.count == 0
    case TakeSignal => s.pc == Waiting && Signalled(s.queue)
    case ReadEventFd => s.pc == ReadSignal
    case Drain => s.pc.Draining?
    case HandleItem(_, _) => s.pc.Batch? && s.pc.items != []
    case EndBatch => s.pc.Batch? && s.pc.items == []
    case AcceptEvent => s.pc == Waiting
    case AcceptOne(fd, _) => s.pc == Accepting && fd !in s.io.open
    case EndAccept => s.pc == Accepting
    case TimerTick => s.pc == Waiting
    case Interrupted => s.pc == Waiting
    case ReadEvent(fd, readable, err, rdhup, _) =>
      s.pc == Waiting && Deliverable(s.io, fd, readable, false, err, rdhup) && s.io.armed[fd] == ForRead
    case WriteEvent(fd, writable, err, rdhup, _, _) =>
      s.pc == Waiting && Deliverable(s.io, fd, false, writable, err, rdhup) && s.io.armed[fd] == ForWrite
    case PushResponse => s.pc.Pushing?
    case SignalResponse => s.pc.Signalling?
    case CountTask => s.pc.Counting?
    case EnqueueTask => s.pc.Enqueuing?
    case RollBackTask => s.pc.RollingBack?
    case TestCounter => s.pc == StopCount
    case TestSize => s.pc == StopSize
    case StopIdle => s.pc == StopPoll
    case StopSignal => s.pc == StopPoll && s.queue.edge
    case StopEvent(fd, readable, writable, err, rdhup, _, _) =>
      s.pc == StopPoll && Deliverable(s.io, fd, readable, writable, err, rdhup)
    case PollFails => s.pc == Waiting || s.pc == StopPoll
    case PopTask(w) => PoolStarted(s) && CanPop(s.pool, w)
    case FinishTask(w) => w < |s.pool.workers| && s.pool.workers[w].Running?
    case NotifyIo(w) => w < |s.pool.workers| && s.pool.workers[w] == Notifying
    case SettleTask(w) => w < |s.pool.workers| && s.pool.workers[w] == Settling
    case LeavePool(w) => PoolStarted(s) && CanLeave(s.pool, w)
    case ClearRunning => s.stopper == NotAsked
    case StopQueue => s.stopper == FlagCleared
    case NotifyStop => s.stopper == QueueStopped
    case StopPool => s.pc in {Finished, Aborted, Crashed}
    case Tick(now) => now >= s.now
  }

  /** `m_thread_pool->start()` comes after the set-up. */
  predicate PoolStarted(s: State) {
    s.pc != Setup && s.pc != Registering
  }

  function NotifyFrom(s: State): State {
    s.(queue := Notify(s.queue, PoolStarted(s)))
  }

  function EndEvent(s: State, tail: Tail): State {
    s.(io := FinishEvent(s.io, tail.fd, tail.err, tail.rdhup), pc := LoopTest)
  }

  function AfterRead(s: State, io: Io, action: Action, tail: Tail): State {
    match action
    case Nothing => EndEvent(s.(io := io), tail)
    case Respond(job) => s.(io := io, pc := Pushing(job, tail))
    case Dispatch(job) => s.(io := io, pc := Counting(job, tail))
    case UseAfterMove => s.(io := io, pc := Crashed)
  }

  /** An event during the final drain: EPOLLIN only closes. */
  function HandleStopEvent(io: Io, fd: int, readable: bool, writable: bool, err: bool, rdhup: bool,
                           outcome: WriteOutcome, rearmed: bool, now: nat): Io {
    var io1 := if writable then OnWrite(io, fd, outcome, rearmed, now) else io;
    FinishEvent(io1, fd, err || readable, rdhup)
  }

  function Next(s: State, step: Step): State
    requires Enabled(s, step)
  {
    match step
    case SetEventFd => s.(pc := Registering, queue := s.queue.(fdSet := true))
    case RegisterEventFd => s.(pc := LoopTest, queue := s.queue.(edge := s.queue.count > 0))
    case TestRunning => s.(pc := if StillRunning(s) then Waiting else StopCount)
    case SpuriousSignal => s.(queue := s.queue.(edge := false))
    case TakeSignal => s.(pc := ReadSignal, queue := s.queue.(edge := false))
    case ReadEventFd => s.(pc := Draining(false), queue := s.queue.(count := 0))
    case Drain => s.(pc := Batch(s.queue.items, s.pc.stopping), queue := DrainAll(s.queue))
    case HandleItem(outcome, rearmed) =>
      s.(io := Deliver(s.io, s.pc.items[0], outcome, rearmed, s.now), pc := Batch(s.pc.items[1..], s.pc.stopping))
    case EndBatch => s.(pc := if s.pc.stopping then StopPoll else LoopTest)
    case AcceptEvent => s.(pc := Accepting)
    case AcceptOne(fd, registered) => s.(io := Accept(s.io, fd, registered, s.now))
    case EndAccept => s.(pc := LoopTest)
    case TimerTick => s.(io := CheckTimeouts(s.io, s.now), pc := LoopTest)
    case Interrupted => s.(pc := LoopTest)
    case ReadEvent(fd, readable, err, rdhup, result) =>
      var io1 := Disarm(s.io, fd, !readable && !err);
      var (io2, action) := if readable then OnRead(io1, fd, result, s.now) else (io1, Nothing);
      AfterRead(s, io2, action, Tail(fd, err, rdhup))
    case WriteEvent(fd, writable, err, rdhup, outcome, rearmed) =>
      var io1 := Disarm(s.io, fd, !writable && !err);
      var io2 := if writable then OnWrite(io1, fd, outcome, rearmed, s.now) else io1;
      EndEvent(s.(io := io2), Tail(fd, err, rdhup))
    case PushResponse => s.(pc := Signalling(s.pc.tail), queue := PushDirect(s.queue, s.pc.job))
    case SignalResponse => EndEvent(NotifyFrom(s), s.pc.tail)
    case CountTask => s.(pc := Enqueuing(s.pc.job, s.pc.tail), pool := CountUp(s.pool))
    case EnqueueTask =>
      if IsFull(s.pool) then s.(pc := RollingBack(s.pc.job, s.pc.tail))
      else EndEvent(s.(pool := Enqueue(s.pool, s.pc.job)), s.pc.tail)
    case RollBackTask => s.(pc := Pushing(s.pc.job, s.pc.tail), pool := CountDown(s.pool))
    case TestCounter => s.(pc := if s.pool.unfinished > 0 then Draining(true) else StopSize)
    case TestSize => s.(pc := if |s.queue.items| > 0 then Draining(true) else Finished)
    case StopIdle => s.(pc := StopCount)
    case StopSignal => s.(pc := StopCount, queue := s.queue.(edge := false))
    case StopEvent(fd, readable, writable, err, rdhup, outcome, rearmed) =>
      s.(io := HandleStopEvent(Disarm(s.io, fd, !readable && !writable && !err), fd, readable, writable, err, rdhup,
                               outcome, rearmed, s.now),
         pc := StopCount)
    case PollFails => s.(pc := Aborted)
    case PopTask(w) => s.(pool := Pop(s.pool, w))
    case FinishTask(w) => s.(pool := Finish(s.pool, w), queue := Push(s.queue, s.pool.workers[w].job))
    case NotifyIo(w) => NotifyFrom(s).(pool := Notified(s.pool, w))
    case SettleTask(w) => s.(pool := Settle(s.pool, w))
    case LeavePool(w) => s.(pool := Leave(s.pool, w))
    case ClearRunning => s.(stopper := FlagCleared)
    case StopQueue => s.(stopper := QueueStopped)
    case NotifyStop => NotifyFrom(s).(stopper := StopDone)
    case StopPool => s.(pool := s.pool.(stopped := true))
    case Tick(now) => s.(now := now)
  }

  // ------------------------------------------------------------------ runs

  /** The schedule `steps` can be taken from `s`, one enabled step after another. */
  predicate Possible(s: State, steps: seq<Step>)
    decreases |steps|
  {
    steps == [] || (Enabled(s, steps[0]) && Possible(Next(s, steps[0]), steps[1..]))
  }

  function After(s: State, steps: seq<Step>): State
    requires Possible(s, steps)
    decreases |steps|
  {
    if steps == [] then s else After(Next(s, steps[0]), steps[1..])
  }

  /** Prepending an enabled step to a schedule. */
  lemma Prepend(s: State, step: Step, rest: seq<Step>)
    requires Enabled(s, step) && Possible(Next(s, step), rest)
    ensures Possible(s, [step] + rest) && After(s, [step] + rest) == After(Next(s, step), rest)
  {
    assert ([step] + rest)[1..] == rest;
  }

  /** One schedule after another. */
  lemma {:induction false} Join(s: State, a: seq<Step>, b: seq<Step>)
    requires Possible(s, a) && Possible(After(s, a), b)
    ensures Possible(s, a + b) && After(s, a + b) == After(After(s, a), b)
    decreases |a|
  {
    if a == [] {
      assert a + b == b;
    } else {
      assert (a + b)[1..] == a[1..] + b;
      Join(Next(s, a[0]), a[1..], b);
    }
  }
}
