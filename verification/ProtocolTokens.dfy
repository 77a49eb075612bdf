/** Where every request and response is, and that no step loses, copies or
    misplaces one. */
module ProtocolTokens {

  import opened Common
  import opened Reactor
  import opened ReactorSound
  import opened TimeoutScan
  import opened Tokens
  import opened ThreadPool
  import opened ResponseQueue
  import opened Protocol

  /** The request or responses the I/O thread itself has in hand. */
  function Held(pc: IoPc): seq<Job> {
    match pc
    case Batch(items, _) => items
    case Pushing(job, _) => [job]
    case Counting(job, _) => [job]
    case Enqueuing(job, _) => [job]
    case RollingBack(job, _) => [job]
    case _ => []
  }

  function Flying(s: State): multiset<Job> {
    multiset(s.pool.tasks) + RunningJobs(s.pool.workers) + multiset(s.queue.items) + multiset(Held(s.pc))
  }

  // --------------------------------------------------- movement of the tokens

  lemma Append(jobs: seq<Job>, job: Job)
    ensures multiset(jobs + [job]) == multiset(jobs) + multiset{job}
  {
  }

  /** Wherever `x` is among the four places, the sum is the same. */
  lemma AnyPlace(a: multiset<Job>, b: multiset<Job>, c: multiset<Job>, d: multiset<Job>, x: multiset<Job>)
    ensures (a + x) + b + c + d == a + (b + x) + c + d == a + b + (c + x) + d == a + b + c + (d + x)
  {
  }

  lemma FlyingPop(s: State, w: nat)
    requires Enabled(s, PopTask(w))
    ensures Flying(Next(s, PopTask(w))) == Flying(s)
  {
    var p := s.pool;
    PopConserves(p, w);
    HeadTail(p.tasks);
    AnyPlace(multiset(p.tasks[1..]), RunningJobs(p.workers), multiset(s.queue.items), multiset(Held(s.pc)),
             multiset{p.tasks[0]});
  }

  lemma FlyingFinish(s: State, w: nat)
    requires Enabled(s, FinishTask(w))
    ensures Flying(Next(s, FinishTask(w))) == Flying(s)
  {
    var p, job := s.pool, s.pool.workers[w].job;
    FinishConserves(p, w);
    Append(s.queue.items, job);
    AnyPlace(multiset(p.tasks), RunningJobs(Finish(p, w).workers), multiset(s.queue.items), multiset(Held(s.pc)),
             multiset{job});
  }

  lemma FlyingWorker(s: State, step: Step)
    requires Enabled(s, step) && IsWorkerStep(step)
    ensures Flying(Next(s, step)) == Flying(s)
  {
    match step
    case PopTask(w) => FlyingPop(s, w);
    case FinishTask(w) => FlyingFinish(s, w);
    case NotifyIo(w) => RunningSame(s.pool.workers, w, Settling);
    case SettleTask(w) => RunningSame(s.pool.workers, w, Free);
    case LeavePool(w) => RunningSame(s.pool.workers, w, Gone);
  }

  /** Steps of the I/O thread and the stopper that move a job between places. */
  predicate MovesJob(step: Step) {
    step.PushResponse? || step.EnqueueTask? || step.Drain? || step.HandleItem? || step.ReadEvent?
  }

  predicate SamePlaces(s: State, s': State) {
    && s'.pool.tasks == s.pool.tasks && s'.pool.workers == s.pool.workers && s'.queue.items == s.queue.items
    && Held(s'.pc) == Held(s.pc)
  }

  lemma PlacesStayAtEvents(s: State, step: Step)
    requires Enabled(s, step) && (step.WriteEvent? || step.StopEvent? || step.SignalResponse? || step.AcceptOne?)
    ensures SamePlaces(s, Next(s, step))
  {
  }

  lemma PlacesStayOutside(s: State, step: Step)
    requires Enabled(s, step) && IsOutsideStep(step)
    ensures SamePlaces(s, Next(s, step))
  {
  }

  lemma PlacesStay(s: State, step: Step)
    requires Enabled(s, step) && !IsWorkerStep(step) && !MovesJob(step) && !IsOutsideStep(step)
    requires !step.WriteEvent? && !step.StopEvent? && !step.SignalResponse? && !step.AcceptOne?
    ensures SamePlaces(s, Next(s, step))
  {
  }

  lemma FlyingStays(s: State, step: Step)
    requires Enabled(s, step) && !IsWorkerStep(step) && !MovesJob(step)
    ensures Flying(Next(s, step)) == Flying(s)
  {
    assert SamePlaces(s, Next(s, step)) by {
      if step.WriteEvent? || step.StopEvent? || step.SignalResponse? || step.AcceptOne? {
        PlacesStayAtEvents(s, step);
      } else if IsOutsideStep(step) {
        PlacesStayOutside(s, step);
      } else {
        PlacesStay(s, step);
      }
    }
  }

  /** The reactor lays the job it holds on the response queue. */
  lemma PushConserves(a: multiset<Job>, b: multiset<Job>, items: seq<Job>, job: Job)
    ensures a + b + multiset(items + [job]) + multiset([]) == a + b + multiset(items) + multiset([job])
  {
    Append(items, job);
  }

  lemma FlyingPush(s: State)
    requires Enabled(s, PushResponse)
    ensures Flying(Next(s, PushResponse)) == Flying(s)
  {
    var s' := Next(s, PushResponse);
    assert s'.pool == s.pool && s'.queue.items == s.queue.items + [s.pc.job];
    assert Held(s'.pc) == [] && Held(s.pc) == [s.pc.job];
    PushConserves(multiset(s.pool.tasks), RunningJobs(s.pool.workers), s.queue.items, s.pc.job);
  }

  /** The reactor lays the job it holds on the task queue. */
  lemma EnqueueConserves(tasks: seq<Job>, b: multiset<Job>, c: multiset<Job>, job: Job)
    ensures multiset(tasks + [job]) + b + c + multiset([]) == multiset(tasks) + b + c + multiset([job])
  {
    Append(tasks, job);
  }

  lemma FlyingEnqueue(s: State)
    requires Enabled(s, EnqueueTask)
    ensures Flying(Next(s, EnqueueTask)) == Flying(s)
  {
    var s' := Next(s, EnqueueTask);
    if IsFull(s.pool) {
      assert SamePlaces(s, s');
    } else {
      assert s'.pool.tasks == s.pool.tasks + [s.pc.job] && s'.pool.workers == s.pool.workers;
      assert s'.queue == s.queue && Held(s'.pc) == [] && Held(s.pc) == [s.pc.job];
      EnqueueConserves(s.pool.tasks, RunningJobs(s.pool.workers), multiset(s.queue.items), s.pc.job);
    }
  }

  lemma FlyingDrain(s: State)
    requires Enabled(s, Drain)
    ensures Flying(Next(s, Drain)) == Flying(s)
  {
    var s' := Next(s, Drain);
    assert s'.pool == s.pool && Held(s.pc) == [] && multiset(s'.queue.items) == multiset{};
    assert Held(s'.pc) == s.queue.items;
  }

  lemma FlyingRead(s: State, step: Step)
    requires Enabled(s, step) && step.ReadEvent?
    ensures Flying(Next(s, step)) == Flying(s) + multiset(Held(Next(s, step).pc))
  {
    assert Held(s.pc) == [];
    var s' := Next(s, step);
    assert s'.pool == s.pool && s'.queue == s.queue;
  }

  lemma FlyingHandle(s: State, step: Step)
    requires Enabled(s, step) && step.HandleItem?
    ensures s.pc.items[0] in Flying(s)
    ensures Flying(Next(s, step)) == Flying(s) - multiset{s.pc.items[0]}
  {
    HeadTail(s.pc.items);
  }

  // ------------------------------------------------------------ the invariant

  /** In a `clean` history no registration with epoll has failed. */
  ghost predicate IoInv(s: State, clean: bool) {
    && Sound(s.io, s.now, clean)
    && TokensHeld(s.io, Flying(s))
    && s.pc != Crashed
  }

  predicate IsClean(step: Step) {
    step.AcceptOne? ==> step.registered
  }

  ghost predicate ReadSettled(io: Io, action: Action, flying: multiset<Job>, now: nat, clean: bool) {
    && Sound(io, now, clean)
    && match action
       case Nothing => TokensHeld(io, flying)
       case Respond(job) => TokensHeld(io, flying + multiset{job})
       case Dispatch(job) => TokensHeld(io, flying + multiset{job})
       case UseAfterMove => false
  }

  /** Taking a job in hand adds it to the jobs in flight. */
  lemma FlyingHold(s: State, s': State, job: Job)
    requires s'.pool == s.pool && s'.queue == s.queue && Held(s.pc) == [] && Held(s'.pc) == [job]
    ensures Flying(s') == Flying(s) + multiset{job}
  {
    assert multiset([job]) == multiset{job};
  }

  lemma AfterReadInv(s: State, io: Io, action: Action, tail: Tail, clean: bool)
    requires s.pc == Waiting && ReadSettled(io, action, Flying(s), s.now, clean)
    ensures IoInv(AfterRead(s, io, action, tail), clean)
  {
    var s' := AfterRead(s, io, action, tail);
    assert s'.pool == s.pool && s'.queue == s.queue && s'.now == s.now;
    match action
    case Nothing =>
      assert Held(s'.pc) == Held(s.pc);
      FinishEventTokens(io, tail.fd, tail.err, tail.rdhup, Flying(s));
      FinishEventSound(io, tail.fd, tail.err, tail.rdhup, s.now, clean);
    case Respond(job) => FlyingHold(s, s', job);
    case Dispatch(job) => FlyingHold(s, s', job);
  }

  lemma ReadSettles(s: State, fd: int, result: ReadOutcome, clean: bool)
    requires IoInv(s, clean) && fd in s.io.armed && s.io.armed[fd] == ForRead
    ensures var (io, action) := OnRead(Disarm(s.io, fd, false), fd, result, s.now);
            ReadSettled(io, action, Flying(s), s.now, clean)
  {
    assert fd in s.io.connections;
    OnReadTokens(s.io, fd, result, s.now, Flying(s));
    DisarmSound(s.io, fd, false, s.now, clean);
    OnReadSound(Disarm(s.io, fd, false), fd, result, s.now, clean);
  }

  lemma IoStepRead(s: State, step: Step, clean: bool)
    requires IoInv(s, clean) && Enabled(s, step) && step.ReadEvent? && step.readable
    ensures IoInv(Next(s, step), clean)
  {
    var ReadEvent(fd, _, err, rdhup, result) := step;
    ReadSettles(s, fd, result, clean);
    var (io, action) := OnRead(Disarm(s.io, fd, false), fd, result, s.now);
    AfterReadInv(s, io, action, Tail(fd, err, rdhup), clean);
  }

  lemma IoStepHangup(s: State, step: Step, clean: bool)
    requires IoInv(s, clean) && Enabled(s, step) && step.ReadEvent? && !step.readable
    ensures IoInv(Next(s, step), clean)
  {
    var ReadEvent(fd, _, err, rdhup, _) := step;
    FlyingRead(s, step);
    EventWithoutRead(s.io, fd, false, false, err, rdhup, WroteAll, true, s.now, Flying(s), clean);
  }

  /** A write event, an event of the final drain, and a read event without EPOLLIN. */
  lemma EventWithoutRead(io: Io, fd: int, readable: bool, writable: bool, err: bool, rdhup: bool,
                         outcome: WriteOutcome, rearmed: bool, now: nat, flying: multiset<Job>, clean: bool)
    requires Sound(io, now, clean) && TokensHeld(io, flying) && Deliverable(io, fd, readable, writable, err, rdhup)
    ensures var io1 := Disarm(io, fd, !readable && !writable && !err);
            var io' := HandleStopEvent(io1, fd, readable, writable, err, rdhup, outcome, rearmed, now);
            Sound(io', now, clean) && TokensHeld(io', flying)
  {
    assert fd in io.connections;
    var io1 := Disarm(io, fd, !readable && !writable && !err);
    DisarmSound(io, fd, !readable && !writable && !err, now, clean);
    if writable {
      OnWriteTokens(io, fd, outcome, rearmed, now, flying);
      DoWriteSound(io1, fd, outcome, rearmed, now, clean);
      var io2 := OnWrite(io1, fd, outcome, rearmed, now);
      FinishEventTokens(io2, fd, err || readable, rdhup, flying);
      FinishEventSound(io2, fd, err || readable, rdhup, now, clean);
    } else {
      FinishEventSound(io1, fd, err || readable, rdhup, now, clean);
      if err || readable {
        FailTokens(io, fd, rdhup, flying);
      } else {
        ParkTokens(io, fd, flying);
        FinishEventTokens(io1, fd, false, rdhup, flying);
      }
    }
  }

  lemma IoStepBatch(s: State, step: Step, clean: bool)
    requires IoInv(s, clean) && Enabled(s, step) && step.HandleItem?
    ensures IoInv(Next(s, step), clean)
  {
    FlyingHandle(s, step);
    DeliverTokens(s.io, s.pc.items[0], step.outcome, step.rearmed, s.now, Flying(s));
    DeliverSound(s.io, s.pc.items[0], step.outcome, step.rearmed, s.now, clean);
  }

  lemma IoStepWrite(s: State, step: Step, clean: bool)
    requires IoInv(s, clean) && Enabled(s, step) && (step.WriteEvent? || step.StopEvent?)
    ensures IoInv(Next(s, step), clean)
  {
    FlyingStays(s, step);
    var readable := step.StopEvent? && step.readable;
    EventWithoutRead(s.io, step.fd, readable, step.writable, step.err, step.rdhup, step.outcome, step.rearmed,
                     s.now, Flying(s), clean);
  }

  lemma IoStepAccept(s: State, step: Step, clean: bool)
    requires IoInv(s, clean) && Enabled(s, step) && step.AcceptOne?
    ensures IoInv(Next(s, step), clean && step.registered)
  {
    FlyingStays(s, step);
    AcceptTokens(s.io, step.fd, step.registered, s.now, Flying(s));
    AcceptSound(s.io, step.fd, step.registered, s.now, clean);
  }

  lemma IoStepTimer(s: State, clean: bool)
    requires IoInv(s, clean) && Enabled(s, TimerTick)
    ensures IoInv(Next(s, TimerTick), clean)
  {
    FlyingStays(s, TimerTick);
    CheckTimeoutsMeaning(s.io, s.now);
    CheckTimeoutsSound(s.io, s.now, clean);
    ShrinkTokens(s.io, CheckTimeouts(s.io, s.now), Closed(s.io.connections, s.io.timeouts, s.now), Flying(s));
  }

  /** The tail of a read event leaves the jobs where they are. */
  lemma TailSettles(s: State, s': State, tail: Tail, clean: bool)
    requires IoInv(s, clean) && Flying(s') == Flying(s) && s'.now == s.now && s'.pc != Crashed
    requires s'.io == s.io || s'.io == FinishEvent(s.io, tail.fd, tail.err, tail.rdhup)
    ensures IoInv(s', clean)
  {
    FinishEventTokens(s.io, tail.fd, tail.err, tail.rdhup, Flying(s));
    FinishEventSound(s.io, tail.fd, tail.err, tail.rdhup, s.now, clean);
  }

  lemma IoStepSignal(s: State, clean: bool)
    requires IoInv(s, clean) && Enabled(s, SignalResponse)
    ensures IoInv(Next(s, SignalResponse), clean)
  {
    FlyingStays(s, SignalResponse);
    TailSettles(s, Next(s, SignalResponse), s.pc.tail, clean);
  }

  lemma IoStepEnqueue(s: State, clean: bool)
    requires IoInv(s, clean) && Enabled(s, EnqueueTask)
    ensures IoInv(Next(s, EnqueueTask), clean)
  {
    FlyingEnqueue(s);
    TailSettles(s, Next(s, EnqueueTask), s.pc.tail, clean);
  }

  predicate LeavesIo(step: Step) {
    !step.HandleItem? && !step.ReadEvent? && !step.WriteEvent? && !step.StopEvent? && !step.AcceptOne?
    && !step.TimerTick? && !step.SignalResponse? && !step.EnqueueTask?
  }

  lemma IoStepQuiet(s: State, step: Step, clean: bool)
    requires IoInv(s, clean) && Enabled(s, step) && LeavesIo(step)
    ensures IoInv(Next(s, step), clean)
  {
    var s' := Next(s, step);
    assert s'.io == s.io && s'.pc != Crashed && s'.now >= s.now;
    if IsWorkerStep(step) { FlyingWorker(s, step); }
    else if step.PushResponse? { FlyingPush(s); }
    else if step.Drain? { FlyingDrain(s); }
    else { FlyingStays(s, step); }
    assert Sound(s.io, s'.now, clean);
  }

  lemma IoStep(s: State, step: Step, clean: bool)
    requires IoInv(s, clean) && Enabled(s, step)
    ensures IoInv(Next(s, step), clean && IsClean(step))
  {
    if step.ReadEvent? {
      if step.readable { IoStepRead(s, step, clean); } else { IoStepHangup(s, step, clean); }
    }
    else if step.HandleItem? { IoStepBatch(s, step, clean); }
    else if step.WriteEvent? || step.StopEvent? { IoStepWrite(s, step, clean); }
    else if step.AcceptOne? { IoStepAccept(s, step, clean); }
    else if step.TimerTick? { IoStepTimer(s, clean); }
    else if step.SignalResponse? { IoStepSignal(s, clean); }
    else if step.EnqueueTask? { IoStepEnqueue(s, clean); }
    else { IoStepQuiet(s, step, clean); }
  }
}
