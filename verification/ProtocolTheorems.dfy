/** What holds in every state of every run. */
module ProtocolTheorems {

  import opened Common
  import opened Reactor
  import opened ReactorSound
  import opened TimeoutScan
  import opened Tokens
  import opened ThreadPool
  import opened ResponseQueue
  import opened Protocol
  import opened ProtocolQueues
  import opened ProtocolTokens

  // ------------------------------------------------------- induction over runs

  /** While a read event is being finished its connection is not parked. */
  predicate TailInv(s: State) {
    (s.pc.Pushing? || s.pc.Signalling? || s.pc.Counting? || s.pc.Enqueuing? || s.pc.RollingBack?) ==>
      (s.pc.tail.fd in s.io.connections ==> s.io.connections[s.pc.tail.fd].id !in s.io.parked)
  }

  ghost predicate Inv(s: State, clean: bool) {
    PoolInv(s) && QueueInv(s) && WakeInv(s) && StopInv(s) && TailInv(s) && IoInv(s, clean)
  }

  predicate AllClean(steps: seq<Step>)
    decreases |steps|
  {
    steps == [] || (IsClean(steps[0]) && AllClean(steps[1..]))
  }

  lemma StartInv(capacity: nat, workers: nat, now: nat)
    ensures Inv(Start(capacity, workers, now), true)
  {
    var s := Start(capacity, workers, now);
    NobodyBusy(s.pool.workers);
    assert RunningJobs(s.pool.workers) == multiset{};
    assert Flying(s) == multiset{};
  }

  lemma TailStepQuietAtHandlers(s: State, step: Step)
    requires TailInv(s) && Enabled(s, step) && !step.ReadEvent?
    requires IsHandlerStep(step)
    ensures TailInv(Next(s, step))
  {
  }

  lemma TailStepQuietElsewhere(s: State, step: Step)
    requires TailInv(s) && Enabled(s, step) && !step.ReadEvent?
    requires !IsHandlerStep(step)
    ensures TailInv(Next(s, step))
  {
  }

  lemma TailStepQuiet(s: State, step: Step)
    requires TailInv(s) && Enabled(s, step) && !step.ReadEvent?
    ensures TailInv(Next(s, step))
  {
    if IsHandlerStep(step) { TailStepQuietAtHandlers(s, step); } else { TailStepQuietElsewhere(s, step); }
  }

  /** Reading on a connection that is not parked leaves it unparked. */
  lemma ReadKeepsUnparked(io: Io, fd: int, result: ReadOutcome, now: nat)
    requires fd in io.armed && (fd in io.connections ==> io.connections[fd].id !in io.parked)
    ensures var io' := OnRead(Disarm(io, fd, false), fd, result, now).0;
            fd in io'.connections ==> io'.connections[fd].id !in io'.parked
  {
  }

  lemma AfterReadTail(s: State, io: Io, action: Action, tail: Tail)
    requires tail.fd in io.connections ==> io.connections[tail.fd].id !in io.parked
    ensures TailInv(AfterRead(s, io, action, tail))
  {
  }

  lemma NoReadNoTail(s: State, io: Io, tail: Tail)
    ensures TailInv(AfterRead(s, io, Nothing, tail))
  {
  }

  lemma UnparkedWhenArmed(s: State, fd: int)
    requires IoInv(s, false) && fd in s.io.connections && fd in s.io.armed && s.io.armed[fd] == ForRead
    ensures s.io.connections[fd].id !in s.io.parked
  {
    assert TokenOk(s.io, fd, Flying(s));
  }

  lemma TailStepRead(s: State, step: Step)
    requires IoInv(s, false) && Enabled(s, step) && step.ReadEvent?
    ensures TailInv(Next(s, step))
  {
    var ReadEvent(fd, readable, err, rdhup, result) := step;
    var tail := Tail(fd, err, rdhup);
    if readable {
      if fd in s.io.connections { UnparkedWhenArmed(s, fd); }
      ReadKeepsUnparked(s.io, fd, result, s.now);
      var (io, action) := OnRead(Disarm(s.io, fd, false), fd, result, s.now);
      AfterReadTail(s, io, action, tail);
    } else {
      NoReadNoTail(s, Disarm(s.io, fd, !err), tail);
    }
  }

  lemma InvStep(s: State, step: Step, clean: bool)
    requires Inv(s, clean) && Enabled(s, step)
    ensures Inv(Next(s, step), clean && IsClean(step))
  {
    IoStep(s, step, clean);
    if step.ReadEvent? { TailStepRead(s, step); } else { TailStepQuiet(s, step); }
    if IsWorkerStep(step) {
      PoolStepWorker(s, step);
      QueueStepWorker(s, step);
      WakeStepWorker(s, step);
      StopStepWorker(s, step);
    } else {
      PoolStepIo(s, step);
      QueueStepIo(s, step);
      WakeStepIo(s, step);
      StopStepIo(s, step);
    }
  }

  lemma {:induction false} RunInv(s: State, steps: seq<Step>, clean: bool)
    requires Inv(s, clean) && Possible(s, steps)
    ensures Inv(After(s, steps), clean && AllClean(steps))
    decreases |steps|
  {
    if steps != [] {
      InvStep(s, steps[0], clean);
      RunInv(Next(s, steps[0]), steps[1..], clean && IsClean(steps[0]));
    }
  }

  /** `s` is reached from a fresh server by some schedule. */
  ghost predicate ReachedBy(s: State, capacity: nat, workers: nat, start: nat, steps: seq<Step>) {
    Possible(Start(capacity, workers, start), steps) && s == After(Start(capacity, workers, start), steps)
  }

  lemma ReachedInv(s: State, capacity: nat, workers: nat, start: nat, steps: seq<Step>)
    requires ReachedBy(s, capacity, workers, start, steps)
    ensures Inv(s, AllClean(steps))
  {
    StartInv(capacity, workers, start);
    RunInv(Start(capacity, workers, start), steps, true);
  }

  // ------------------------------------------------- one token per connection

  function JobsOf(jobs: seq<Job>, conn: nat): nat {
    if jobs == [] then 0 else (if jobs[0].conn == conn then 1 else 0) + JobsOf(jobs[1..], conn)
  }

  function RunsOf(ws: seq<WorkerPc>, conn: nat): nat {
    if ws == [] then 0 else (if ws[0].Running? && ws[0].job.conn == conn then 1 else 0) + RunsOf(ws[1..], conn)
  }

  /** How many of the places that can make the connection's next move hold it:
      armed for read, queued as a task, executing, queued as a response, in the
      reactor's own hands, or armed for write with a response set. */
  function Claims(s: State, fd: int): nat
    requires fd in s.io.connections && fd in s.io.armed
  {
    var c := s.io.connections[fd];
    (if s.io.armed[fd] == ForRead then 1 else 0)
    + JobsOf(s.pool.tasks, c.id) + RunsOf(s.pool.workers, c.id) + JobsOf(s.queue.items, c.id) + JobsOf(Held(s.pc), c.id)
    + (if s.io.armed[fd] == ForWrite && c.response.Some? then 1 else 0)
  }

  lemma {:induction false} JobsCount(jobs: seq<Job>, job: Job)
    requires forall j :: j in jobs && j.conn == job.conn ==> j == job
    ensures JobsOf(jobs, job.conn) == multiset(jobs)[job]
  {
    if jobs != [] {
      JobsCount(jobs[1..], job);
      assert jobs == [jobs[0]] + jobs[1..];
    }
  }

  lemma {:induction false} RunsCount(ws: seq<WorkerPc>, job: Job)
    requires forall j :: j in RunningJobs(ws) && j.conn == job.conn ==> j == job
    ensures RunsOf(ws, job.conn) == RunningJobs(ws)[job]
  {
    if ws != [] {
      forall j | j in RunningJobs(ws[1..]) && j.conn == job.conn ensures j == job { assert j in RunningJobs(ws); }
      assert ws[0].Running? && ws[0].job.conn == job.conn ==> ws[0].job in RunningJobs(ws);
      RunsCount(ws[1..], job);
    }
  }

  lemma OnlyJobIn(jobs: seq<Job>, all: multiset<Job>, job: Job)
    requires multiset(jobs) <= all && forall j :: j in all && j.conn == job.conn ==> j == job
    ensures JobsOf(jobs, job.conn) == multiset(jobs)[job]
  {
    forall j | j in jobs && j.conn == job.conn ensures j == job { assert j in multiset(jobs); }
    JobsCount(jobs, job);
  }

  lemma OnlyJobRunning(ws: seq<WorkerPc>, all: multiset<Job>, job: Job)
    requires RunningJobs(ws) <= all && forall j :: j in all && j.conn == job.conn ==> j == job
    ensures RunsOf(ws, job.conn) == RunningJobs(ws)[job]
  {
    RunsCount(ws, job);
  }

  lemma FourParts(a: multiset<Job>, b: multiset<Job>, c: multiset<Job>, d: multiset<Job>, job: Job)
    ensures var all := a + b + c + d;
            a <= all && b <= all && c <= all && d <= all && all[job] == a[job] + b[job] + c[job] + d[job]
  {
  }

  /** The jobs of `job`'s connection, counted place by place. */
  lemma PlacesCount(s: State, job: Job)
    requires forall j :: j in Flying(s) && j.conn == job.conn ==> j == job
    ensures JobsOf(s.pool.tasks, job.conn) + RunsOf(s.pool.workers, job.conn) + JobsOf(s.queue.items, job.conn)
            + JobsOf(Held(s.pc), job.conn) == Flying(s)[job]
  {
    var all := Flying(s);
    FourParts(multiset(s.pool.tasks), RunningJobs(s.pool.workers), multiset(s.queue.items), multiset(Held(s.pc)), job);
    OnlyJobIn(s.pool.tasks, all, job);
    OnlyJobRunning(s.pool.workers, all, job);
    OnlyJobIn(s.queue.items, all, job);
    OnlyJobIn(Held(s.pc), all, job);
  }

  /** In every reachable state each live connection has exactly one claim on its
      next move, unless a bare EPOLLRDHUP has parked it: then it has none. */
  lemma OneTokenPerConnection(s: State, capacity: nat, workers: nat, start: nat, steps: seq<Step>, fd: int)
    requires ReachedBy(s, capacity, workers, start, steps) && fd in s.io.connections
    ensures fd in s.io.armed
    ensures s.io.connections[fd].id !in s.io.parked ==> Claims(s, fd) == 1
    ensures s.io.connections[fd].id in s.io.parked ==> Claims(s, fd) == 0 && s.io.armed[fd] == Disarmed
    // parked while armed for write: the response is set and incomplete
    ensures s.io.connections[fd].id in s.io.parked ==>
              (s.io.parked[s.io.connections[fd].id] == ForWrite <==> s.io.connections[fd].response.Some?)
  {
    ReachedInv(s, capacity, workers, start, steps);
    var c, flying := s.io.connections[fd], Flying(s);
    assert TokenOk(s.io, fd, flying);
    var job := if c.requests > 0 then Outstanding(fd, c) else Job(fd, c.id, 0);
    PlacesCount(s, job);
  }

  /** The parser of a connection is never read after it was moved into a request. */
  lemma NoReadOfMovedParser(s: State, capacity: nat, workers: nat, start: nat, steps: seq<Step>)
    requires ReachedBy(s, capacity, workers, start, steps)
    ensures s.pc != Crashed
    ensures forall fd :: fd in s.io.connections && fd in s.io.armed && s.io.armed[fd] == ForRead ==>
              !s.io.connections[fd].parserMoved
  {
    ReachedInv(s, capacity, workers, start, steps);
    forall fd | fd in s.io.connections && fd in s.io.armed && s.io.armed[fd] == ForRead
      ensures !s.io.connections[fd].parserMoved
    {
      assert TokenOk(s.io, fd, Flying(s));
    }
  }

  // ------------------------------------------------ responses stay where they belong

  /** Whatever the interleaving and however descriptors are reused, each write on
      a connection carries a response to a request of that very connection, and
      to the oldest one not answered yet. */
  lemma ResponsesNeverCross(s: State, capacity: nat, workers: nat, start: nat, steps: seq<Step>, p: nat)
    requires ReachedBy(s, capacity, workers, start, steps) && p < |s.io.log|
    ensures s.io.log[p].job.conn == s.io.log[p].conn
    ensures s.io.log[p].job.no == Answers(s.io.log[..p], s.io.log[p].conn)
  {
    ReachedInv(s, capacity, workers, start, steps);
  }

  /** A drained response is dropped exactly when its connection is gone; otherwise
      it is written to that connection, as the answer to its outstanding request. */
  lemma DeliveredOrDropped(s: State, capacity: nat, workers: nat, start: nat, steps: seq<Step>,
                           outcome: WriteOutcome, rearmed: bool)
    requires ReachedBy(s, capacity, workers, start, steps) && Enabled(s, HandleItem(outcome, rearmed))
    ensures var item := s.pc.items[0];
            var live := exists fd :: fd in s.io.connections && s.io.connections[fd].id == item.conn;
            var io' := Next(s, HandleItem(outcome, rearmed)).io;
            if live
            then io'.log == s.io.log + [Sent(item.conn, item, outcome == WroteAll)]
                 && item.fd in s.io.connections && s.io.connections[item.fd].id == item.conn
                 && s.io.connections[item.fd].requests == item.no + 1
            else io' == s.io
  {
    ReachedInv(s, capacity, workers, start, steps);
    var item := s.pc.items[0];
    FlyingHandle(s, HandleItem(outcome, rearmed));
    if fd :| fd in s.io.connections && s.io.connections[fd].id == item.conn {
      FlyingMeetsConnection(s.io, item, Flying(s), fd);
    }
  }

  // -------------------------------------------------------------- shutdown

  /** If the drain loop ends through its condition, every task ever accepted has
      run, and every response, of a worker or of the reactor itself, was taken off
      the queue exactly once. */
  lemma ShutdownLosesNothing(s: State, capacity: nat, workers: nat, start: nat, steps: seq<Step>)
    requires ReachedBy(s, capacity, workers, start, steps) && s.pc == Finished
    ensures multiset(s.pool.executed) == multiset(s.pool.accepted)
    ensures multiset(s.queue.taken) == multiset(s.pool.accepted) + multiset(s.queue.direct)
    ensures s.pool.tasks == [] && s.queue.items == []
    ensures forall w :: 0 <= w < |s.pool.workers| ==> !IsBusy(s.pool.workers[w])
  {
    ReachedInv(s, capacity, workers, start, steps);
    ZeroMeansIdle(s.pool);
    assert s.queue.taken + [] == s.queue.taken;
  }

  /** The counter counts what is queued, in hand or on its way in, and is zero only
      when nothing is queued or running, whatever full-queue roll-backs happened. */
  lemma UnfinishedTasksAccounted(s: State, capacity: nat, workers: nat, start: nat, steps: seq<Step>)
    requires ReachedBy(s, capacity, workers, start, steps)
    ensures s.pool.unfinished == |s.pool.tasks| + Busy(s.pool.workers) + PushesUnderWay(s.pc)
    ensures s.pool.unfinished == 0 ==>
              s.pool.tasks == [] && forall w :: 0 <= w < |s.pool.workers| ==> !IsBusy(s.pool.workers[w])
  {
    ReachedInv(s, capacity, workers, start, steps);
    NobodyBusy(s.pool.workers);
  }

  lemma CounterNeverUnderflows(s: State, capacity: nat, workers: nat, start: nat, steps: seq<Step>, step: Step)
    requires ReachedBy(s, capacity, workers, start, steps) && Enabled(s, step)
    requires step.SettleTask? || step.RollBackTask?
    ensures s.pool.unfinished > 0
  {
    ReachedInv(s, capacity, workers, start, steps);
    NobodyBusy(s.pool.workers);
  }

  /** Both queues are FIFO and hand every item out exactly once; the task queue
      never exceeds its capacity; a worker leaves only a stopped, empty queue. */
  lemma QueuesAreFifo(s: State, capacity: nat, workers: nat, start: nat, steps: seq<Step>)
    requires ReachedBy(s, capacity, workers, start, steps)
    ensures s.pool.popped + s.pool.tasks == s.pool.accepted
    ensures s.queue.taken + s.queue.items == s.queue.pushed
    ensures multiset(s.queue.pushed) == multiset(s.pool.executed) + multiset(s.queue.direct)
    ensures capacity > 0 ==> |s.pool.tasks| <= capacity
    ensures SomeGone(s.pool.workers) ==> s.pool.stopped && s.pool.tasks == []
  {
    ReachedInv(s, capacity, workers, start, steps);
    CapacityFixed(Start(capacity, workers, start), steps);
  }

  lemma CapacityStep(s: State, step: Step)
    requires Enabled(s, step)
    ensures Next(s, step).pool.capacity == s.pool.capacity
  {
  }

  lemma {:induction false} CapacityFixed(s: State, steps: seq<Step>)
    requires Possible(s, steps)
    ensures After(s, steps).pool.capacity == s.pool.capacity
    decreases |steps|
  {
    if steps != [] {
      CapacityStep(s, steps[0]);
      CapacityFixed(Next(s, steps[0]), steps[1..]);
    }
  }

  // -------------------------------------------------------------- wake-ups

  /** While responses wait in the main loop, the eventfd event is deliverable, the
      I/O thread is between that event and its drain, or a pusher is between its
      push and its write of the eventfd.  In epoll_wait only the first and the
      last are left. */
  lemma NoLostWakeup(s: State, capacity: nat, workers: nat, start: nat, steps: seq<Step>)
    requires ReachedBy(s, capacity, workers, start, steps) && InMainLoop(s.pc) && s.queue.items != []
    ensures Signalled(s.queue) || s.pc == ReadSignal || s.pc == Draining(false) || s.pc.Signalling?
            || exists w :: Enabled(s, NotifyIo(w))
    ensures s.pc == Waiting ==> Enabled(s, TakeSignal) || exists w :: Enabled(s, NotifyIo(w))
  {
    ReachedInv(s, capacity, workers, start, steps);
    if SomeNotifying(s.pool) {
      var w :| 0 <= w < |s.pool.workers| && s.pool.workers[w] == Notifying;
      assert Enabled(s, NotifyIo(w));
    }
  }

  /** Steps of the I/O thread itself. */
  predicate IsReactorStep(step: Step) {
    !IsWorkerStep(step) && !IsOutsideStep(step)
  }

  lemma NotWaitingStep(s: State, step: Step)
    requires s.stopper != NotAsked && s.pc != Waiting && Enabled(s, step)
    ensures Next(s, step).stopper != NotAsked && Next(s, step).pc != Waiting
  {
  }

  /** Once m_running is false, a reactor that is not in epoll_wait never enters it
      again, whatever anybody does. */
  lemma {:induction false} NeverWaitsAgain(s: State, steps: seq<Step>)
    requires s.stopper != NotAsked && s.pc != Waiting && Possible(s, steps)
    ensures After(s, steps).pc != Waiting
    decreases |steps|
  {
    if steps != [] {
      NotWaitingStep(s, steps[0]);
      NeverWaitsAgain(Next(s, steps[0]), steps[1..]);
    }
  }

  /** The reactor's next step, when it is not in epoll_wait. */
  function OwnStep(pc: IoPc): Step {
    match pc
    case Setup => SetEventFd
    case Registering => RegisterEventFd
    case Accepting => EndAccept
    case ReadSignal => ReadEventFd
    case Draining(_) => Drain
    case Batch(items, _) => if items == [] then EndBatch else HandleItem(WroteAll, true)
    case Pushing(_, _) => PushResponse
    case Signalling(_) => SignalResponse
    case Counting(_, _) => CountTask
    case Enqueuing(_, _) => EnqueueTask
    case RollingBack(_, _) => RollBackTask
    case _ => TestRunning
  }

  /** How many of its own steps the reactor is from the drain. */
  function StepsToDrain(pc: IoPc, queued: nat): nat {
    match pc
    case LoopTest => 1
    case Registering => 2
    case Setup => 3
    case Accepting => 2
    case Batch(items, _) => 2 + |items|
    case Draining(_) => 3 + queued
    case ReadSignal => 4 + queued
    case Signalling(_) => 2
    case Pushing(_, _) => 3
    case RollingBack(_, _) => 4
    case Enqueuing(_, _) => 5
    case Counting(_, _) => 6
    case _ => 0
  }

  /** Set up or in the main loop, and not in epoll_wait. */
  predicate OnTheWay(pc: IoPc) {
    pc == Setup || pc == Registering || (InMainLoop(pc) && pc != Waiting)
  }

  lemma OwnStepIsPossible(s: State)
    requires OnTheWay(s.pc)
    ensures Enabled(s, OwnStep(s.pc)) && IsReactorStep(OwnStep(s.pc))
  {
  }

  function Left(s: State): nat {
    StepsToDrain(s.pc, |s.queue.items|)
  }

  predicate IsAccept(step: Step) {
    step.AcceptOne?
  }

  /** The step keeps the reactor on its way and, unless it accepts, takes one off. */
  predicate Closer(s: State, s': State, step: Step) {
    && s'.stopper != NotAsked && (s'.pc == StopCount || OnTheWay(s'.pc))
    && if IsAccept(step) then Left(s') == Left(s) else Left(s') < Left(s)
  }

  /** Between a read and the end of its event. */
  predicate InTail(pc: IoPc) {
    pc.Pushing? || pc.Signalling? || pc.Counting? || pc.Enqueuing? || pc.RollingBack?
  }

  lemma TailStepGetsCloser(s: State, step: Step)
    requires s.stopper != NotAsked && InTail(s.pc) && Enabled(s, step) && IsReactorStep(step)
    ensures Closer(s, Next(s, step), step)
  {
  }

  lemma LoopStepGetsCloser(s: State, step: Step)
    requires s.stopper != NotAsked && OnTheWay(s.pc) && !InTail(s.pc) && Enabled(s, step) && IsReactorStep(step)
    ensures Closer(s, Next(s, step), step)
  {
  }

  /** With the flag cleared every step of the reactor but one more accepted connection
      brings it closer to the drain. */
  lemma ReactorStepGetsCloser(s: State, step: Step)
    requires s.stopper != NotAsked && OnTheWay(s.pc) && Enabled(s, step) && IsReactorStep(step)
    ensures Closer(s, Next(s, step), step)
  {
    if InTail(s.pc) { TailStepGetsCloser(s, step); } else { LoopStepGetsCloser(s, step); }
  }

  /** The reactor alone can reach the drain. */
  ghost predicate DrainsAlone(s: State) {
    exists more ::
      Possible(s, more) && (forall step :: step in more ==> IsReactorStep(step)) && After(s, more).pc == StopCount
  }

  lemma {:induction false} ReachesDrain(s: State)
    requires s.stopper != NotAsked && (s.pc == StopCount || OnTheWay(s.pc))
    ensures DrainsAlone(s)
    decreases Left(s)
  {
    if s.pc == StopCount {
      assert Possible(s, []) && After(s, []).pc == StopCount;
    } else {
      OwnStepIsPossible(s);
      ReactorStepGetsCloser(s, OwnStep(s.pc));
      ReachesDrain(Next(s, OwnStep(s.pc)));
      OneMoreOwnStep(s, OwnStep(s.pc));
    }
  }

  lemma OneMoreOwnStep(s: State, step: Step)
    requires Enabled(s, step) && IsReactorStep(step) && DrainsAlone(Next(s, step))
    ensures DrainsAlone(s)
  {
    var more :| Possible(Next(s, step), more) && (forall other :: other in more ==> IsReactorStep(other))
                && After(Next(s, step), more).pc == StopCount;
    Prepend(s, step, more);
    assert forall other :: other in [step] + more ==> IsReactorStep(other);
  }

  predicate InItsWay(s: State, s': State, pushed: nat) {
    s'.stopper != NotAsked && s'.pc == s.pc && Left(s') <= Left(s) + pushed
  }

  lemma WorkerStepPushes(s: State, step: Step)
    requires s.stopper != NotAsked && OnTheWay(s.pc) && Enabled(s, step) && IsWorkerStep(step)
    ensures InItsWay(s, Next(s, step), if step.FinishTask? then 1 else 0)
  {
  }

  lemma OutsideStepPushes(s: State, step: Step)
    requires s.stopper != NotAsked && OnTheWay(s.pc) && Enabled(s, step) && IsOutsideStep(step)
    ensures InItsWay(s, Next(s, step), 0)
  {
  }

  /** The others only push responses in its way. */
  lemma OtherStepPushes(s: State, step: Step)
    requires s.stopper != NotAsked && OnTheWay(s.pc) && Enabled(s, step) && !IsReactorStep(step)
    ensures InItsWay(s, Next(s, step), if step.FinishTask? then 1 else 0)
  {
    if IsWorkerStep(step) { WorkerStepPushes(s, step); } else { OutsideStepPushes(s, step); }
  }

  /** Turns of the reactor other than accepts, and responses pushed by workers. */
  function Turns(steps: seq<Step>): nat {
    if steps == [] then 0 else (if IsReactorStep(steps[0]) && !IsAccept(steps[0]) then 1 else 0) + Turns(steps[1..])
  }

  function Pushes(steps: seq<Step>): nat {
    if steps == [] then 0 else (if steps[0].FinishTask? then 1 else 0) + Pushes(steps[1..])
  }

  /** The schedule comes to the drain loop. */
  predicate PassesDrain(s: State, steps: seq<Step>)
    requires Possible(s, steps)
    decreases |steps|
  {
    s.pc == StopCount || (steps != [] && PassesDrain(Next(s, steps[0]), steps[1..]))
  }

  /** Once m_running is false, in every schedule of all threads the reactor is in the
      drain loop after a number of turns that is known beforehand, one more for each
      response that a worker pushes meanwhile and one for each accepted connection. */
  lemma {:induction false} DrainIsReached(s: State, steps: seq<Step>)
    requires s.stopper != NotAsked && (s.pc == StopCount || OnTheWay(s.pc)) && Possible(s, steps)
    requires Turns(steps) >= Left(s) + Pushes(steps)
    ensures PassesDrain(s, steps)
    decreases |steps|
  {
    if s.pc != StopCount {
      assert steps != [];
      if IsReactorStep(steps[0]) { ReactorStepGetsCloser(s, steps[0]); } else { OtherStepPushes(s, steps[0]); }
      DrainIsReached(Next(s, steps[0]), steps[1..]);
    }
  }

  /** After the stop sequence the reactor is never stuck in epoll_wait: the event is
      there, and without anybody's help it can go on to the drain. */
  lemma StopWakesReactor(s: State, capacity: nat, workers: nat, start: nat, steps: seq<Step>)
    requires ReachedBy(s, capacity, workers, start, steps) && s.stopper == StopDone
    ensures s.pc == Waiting ==> Enabled(s, TakeSignal)
    ensures s.pc == Waiting || OnTheWay(s.pc) ==> DrainsAlone(s)
  {
    ReachedInv(s, capacity, workers, start, steps);
    if s.pc == Waiting {
      ReachesDrain(Next(s, TakeSignal));
      OneMoreOwnStep(s, TakeSignal);
    } else if OnTheWay(s.pc) {
      ReachesDrain(s);
    }
  }

  // --------------------------------------------------------- timeouts, gauge

  /** The connection gauge counts the live connections, whatever failed. */
  lemma GaugeCountsConnections(s: State, capacity: nat, workers: nat, start: nat, steps: seq<Step>)
    requires ReachedBy(s, capacity, workers, start, steps)
    ensures s.io.gauge == |s.io.connections| && s.io.open == s.io.connections.Keys == s.io.armed.Keys
  {
    ReachedInv(s, capacity, workers, start, steps);
  }

  /** Idle for more than 60 s of a clock that counts nanoseconds, and with no task. */
  predicate TimedOut(c: Connection, now: nat) {
    !c.isProcessing && now - c.lastActivity > 60 * 1_000_000_000
  }

  /** The step closes exactly the connections that have timed out. */
  ghost predicate ClosesTimedOut(s: State, s': State) {
    forall fd :: fd in s.io.connections ==>
      (fd !in s'.io.connections <==> TimedOut(s.io.connections[fd], s.now))
  }

  /** It changes nothing else: who is left is as before, with its mask and its list
      node, and no response and no task is touched. */
  ghost predicate SparesOthers(s: State, s': State) {
    && (forall fd :: fd in s'.io.connections ==>
          && fd in s.io.connections && s'.io.connections[fd] == s.io.connections[fd]
          && fd in s.io.armed && fd in s'.io.armed && s'.io.armed[fd] == s.io.armed[fd]
          && Node(s.io.connections[fd].node, fd) in s'.io.timeouts)
    && s'.io.gauge == |s'.io.connections| && s'.io.log == s.io.log && s'.io.nextId == s.io.nextId
    && s'.pc == LoopTest && s'.pool == s.pool && s'.queue == s.queue && s'.stopper == s.stopper && s'.now == s.now
  }

  lemma ScanStep(s: State)
    requires Structure(s.io, s.now) && s.pc == Waiting
    ensures ClosesTimedOut(s, Next(s, TimerTick)) <==> !Obstructed(s.io, s.now)
  {
    ExactUnlessObstructed(s.io, s.now);
    assert Next(s, TimerTick).io == CheckTimeouts(s.io, s.now);
    assert ClosesTimedOut(s, Next(s, TimerTick)) <==> Exact(s.io, s.now);
  }

  lemma ScanSpares(s: State)
    requires Structure(s.io, s.now) && s.pc == Waiting
    ensures SparesOthers(s, Next(s, TimerTick))
  {
    CheckTimeoutsMeaning(s.io, s.now);
    ScanKeepsStructure(s.io, 0, s.now);
  }

  /** In every reachable state a tick of the timer is possible in epoll_wait; it spares
      every other connection, and closes exactly the ones that have timed out unless a
      node left over by a failed registration stands in the way. */
  lemma TimeoutScanExactness(s: State, capacity: nat, workers: nat, start: nat, steps: seq<Step>)
    requires ReachedBy(s, capacity, workers, start, steps) && s.pc == Waiting
    ensures Enabled(s, TimerTick) && SparesOthers(s, Next(s, TimerTick))
    ensures ClosesTimedOut(s, Next(s, TimerTick)) <==> !Obstructed(s.io, s.now)
  {
    ReachedInv(s, capacity, workers, start, steps);
    ScanStep(s);
    ScanSpares(s);
  }

  /** When every registration succeeded, list nodes and connections correspond one
      to one, in order of activity, and every tick is a full filter. */
  lemma TimeoutScanIsFilter(s: State, capacity: nat, workers: nat, start: nat, steps: seq<Step>)
    requires ReachedBy(s, capacity, workers, start, steps) && AllClean(steps)
    ensures NoStaleNodes(s.io) && AllListed(s.io.connections, s.io.timeouts)
    ensures InActivityOrder(s.io.connections, s.io.timeouts)
    ensures s.pc == Waiting ==> Enabled(s, TimerTick) && ClosesTimedOut(s, Next(s, TimerTick))
  {
    ReachedInv(s, capacity, workers, start, steps);
    if s.pc == Waiting {
      ExactWithoutStaleNodes(s.io, s.now);
      ExactUnlessObstructed(s.io, s.now);
      ScanStep(s);
    }
  }
}
