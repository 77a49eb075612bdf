/** Whole turns of the threads as runs of the protocol: what an event, a drain, a
    task and a look at the counters come to when nobody else moves. */
module ProtocolTurns {

  import opened Common
  import opened Reactor
  import opened ThreadPool
  import opened ResponseQueue
  import opened Protocol
  import opened HandlerMeanings

  /** A run that leads from one state to the other. */
  ghost predicate Leads(s: State, steps: seq<Step>, s': State) {
    Possible(s, steps) && After(s, steps) == s'
  }

  lemma LeadsOne(s: State, step: Step)
    requires Enabled(s, step)
    ensures Leads(s, [step], Next(s, step))
  {
    assert [step][1..] == [];
  }

  lemma LeadsCons(s: State, step: Step, rest: seq<Step>, s': State)
    requires Enabled(s, step) && Leads(Next(s, step), rest, s')
    ensures Leads(s, [step] + rest, s')
  {
    Prepend(s, step, rest);
  }

  lemma LeadsJoin(s: State, a: seq<Step>, s1: State, b: seq<Step>, s2: State)
    requires Leads(s, a, s1) && Leads(s1, b, s2)
    ensures Leads(s, a + b, s2)
  {
    Join(s, a, b);
  }

  // -------------------------------------------------------------- read events

  /** The response goes on the queue and the eventfd is written. */
  function Answered(s: State, io: Io, job: Job): State {
    s.(io := io, pc := LoopTest,
       queue := s.queue.(items := s.queue.items + [job], pushed := s.queue.pushed + [job],
                         direct := s.queue.direct + [job],
                         count := s.queue.count + if s.queue.fdSet then 1 else 0,
                         edge := s.queue.edge || s.queue.fdSet))
  }

  /** The task goes to the pool and is counted. */
  function Dispatched(s: State, io: Io, job: Job): State {
    s.(io := io, pc := LoopTest,
       pool := s.pool.(tasks := s.pool.tasks + [job], accepted := s.pool.accepted + [job],
                       unfinished := s.pool.unfinished + 1))
  }

  /** What a read event and its pushes come to: a full pool is answered instead. */
  function Concluded(s: State, io: Io, action: Action): State {
    match action
    case Respond(job) => Answered(s, io, job)
    case Dispatch(job) =>
      if s.pool.capacity > 0 && |s.pool.tasks| >= s.pool.capacity then Answered(s, io, job) else Dispatched(s, io, job)
    case _ => s.(io := io, pc := LoopTest)
  }

  function PushSteps(s: State, action: Action): seq<Step> {
    match action
    case Respond(_) => [PushResponse, SignalResponse]
    case Dispatch(_) =>
      if IsFull(s.pool) then [CountTask, EnqueueTask, RollBackTask, PushResponse, SignalResponse]
      else [CountTask, EnqueueTask]
    case _ => []
  }

  lemma RespondRun(s: State, job: Job, tail: Tail)
    requires s.pc == Pushing(job, tail)
    ensures Leads(s, [PushResponse, SignalResponse],
                  Answered(s, FinishEvent(s.io, tail.fd, tail.err, tail.rdhup), job))
  {
    var s1 := Next(s, PushResponse);
    LeadsOne(s1, SignalResponse);
    LeadsCons(s, PushResponse, [SignalResponse], Next(s1, SignalResponse));
    assert [PushResponse] + [SignalResponse] == [PushResponse, SignalResponse];
  }

  lemma DispatchRun(s: State, job: Job, tail: Tail)
    requires s.pc == Counting(job, tail) && !IsFull(s.pool)
    ensures Leads(s, [CountTask, EnqueueTask],
                  Dispatched(s, FinishEvent(s.io, tail.fd, tail.err, tail.rdhup), job))
  {
    var s1 := Next(s, CountTask);
    LeadsOne(s1, EnqueueTask);
    LeadsCons(s, CountTask, [EnqueueTask], Next(s1, EnqueueTask));
    assert [CountTask] + [EnqueueTask] == [CountTask, EnqueueTask];
  }

  lemma RefusedRun(s: State, job: Job, tail: Tail)
    requires s.pc == Counting(job, tail) && IsFull(s.pool)
    ensures Leads(s, [CountTask] + ([EnqueueTask] + [RollBackTask]), s.(pc := Pushing(job, tail)))
  {
    var s1 := Next(s, CountTask);
    var s2 := Next(s1, EnqueueTask);
    LeadsOne(s2, RollBackTask);
    LeadsCons(s1, EnqueueTask, [RollBackTask], Next(s2, RollBackTask));
    LeadsCons(s, CountTask, [EnqueueTask] + [RollBackTask], Next(s2, RollBackTask));
  }

  lemma OverloadRun(s: State, job: Job, tail: Tail)
    requires s.pc == Counting(job, tail) && IsFull(s.pool)
    ensures Leads(s, [CountTask, EnqueueTask, RollBackTask, PushResponse, SignalResponse],
                  Answered(s, FinishEvent(s.io, tail.fd, tail.err, tail.rdhup), job))
  {
    var s1 := s.(pc := Pushing(job, tail));
    RefusedRun(s, job, tail);
    RespondRun(s1, job, tail);
    LeadsJoin(s, [CountTask] + ([EnqueueTask] + [RollBackTask]), s1, [PushResponse, SignalResponse],
              Answered(s, FinishEvent(s.io, tail.fd, tail.err, tail.rdhup), job));
    assert [CountTask] + ([EnqueueTask] + [RollBackTask]) + [PushResponse, SignalResponse]
           == [CountTask, EnqueueTask, RollBackTask, PushResponse, SignalResponse];
  }

  /** What is left to do after the handler of a read event. */
  lemma PushRun(s: State, job: Job, tail: Tail, action: Action)
    requires (action == Respond(job) && s.pc == Pushing(job, tail))
          || (action == Dispatch(job) && s.pc == Counting(job, tail))
    ensures Leads(s, PushSteps(s, action), Concluded(s, FinishEvent(s.io, tail.fd, tail.err, tail.rdhup), action))
  {
    if action.Respond? { RespondRun(s, job, tail); }
    else if IsFull(s.pool) { OverloadRun(s, job, tail); }
    else { DispatchRun(s, job, tail); }
  }

  /** The handler's part of a read event. */
  lemma ReadStep(s: State, fd: int, readable: bool, err: bool, rdhup: bool, result: ReadOutcome)
    requires s.pc == Waiting && Deliverable(s.io, fd, readable, false, err, rdhup) && s.io.armed[fd] == ForRead
    ensures var io1 := Disarm(s.io, fd, !readable && !err);
            var (io2, action) := if readable then OnRead(io1, fd, result, s.now) else (io1, Nothing);
            var step, tail := ReadEvent(fd, readable, err, rdhup, result), Tail(fd, err, rdhup);
            Enabled(s, step) && Next(s, step) == match action
              case Nothing => s.(io := FinishEvent(io2, fd, err, rdhup), pc := LoopTest)
              case Respond(job) => s.(io := io2, pc := Pushing(job, tail))
              case Dispatch(job) => s.(io := io2, pc := Counting(job, tail))
              case UseAfterMove => s.(io := io2, pc := Crashed)
  {
  }

  /** A read event in epoll_wait, with the pushes it causes, does what the handlers do
      and gives the response queue or the pool exactly the request handed over. */
  lemma ReadTurn(s: State, fd: int, readable: bool, err: bool, rdhup: bool, result: ReadOutcome)
    requires s.pc == Waiting && Deliverable(s.io, fd, readable, false, err, rdhup) && s.io.armed[fd] == ForRead
    requires Handled(s.io, fd, readable, false, err, rdhup, result, WroteAll, true, s.now).1 != UseAfterMove
    ensures var (io, action) := Handled(s.io, fd, readable, false, err, rdhup, result, WroteAll, true, s.now);
            Leads(s, [ReadEvent(fd, readable, err, rdhup, result)] + PushSteps(s, action), Concluded(s, io, action))
  {
    var step := ReadEvent(fd, readable, err, rdhup, result);
    var (io, action) := Handled(s.io, fd, readable, false, err, rdhup, result, WroteAll, true, s.now);
    ReadStep(s, fd, readable, err, rdhup, result);
    ReadTurnEnds(s, Next(s, step), step, Tail(fd, err, rdhup), io, action);
  }

  lemma ReadTurnEnds(s: State, s1: State, step: Step, tail: Tail, io: Io, action: Action)
    requires Enabled(s, step) && s1 == Next(s, step) && action != UseAfterMove
    requires s1 == s.(io := s1.io, pc := s1.pc)
    requires action == Nothing ==> s1.io == io && s1.pc == LoopTest
    requires action != Nothing ==> io == FinishEvent(s1.io, tail.fd, tail.err, tail.rdhup)
    requires action.Respond? ==> s1.pc == Pushing(action.job, tail)
    requires action.Dispatch? ==> s1.pc == Counting(action.job, tail)
    ensures Leads(s, [step] + PushSteps(s, action), Concluded(s, io, action))
  {
    if action == Nothing {
      LeadsOne(s, step);
      assert [step] + PushSteps(s, action) == [step];
    } else {
      PushRun(s1, action.job, tail, action);
      LeadsCons(s, step, PushSteps(s, action), Concluded(s, io, action));
    }
  }

  /** A write event does what the handlers do and touches nothing shared. */
  lemma WriteTurn(s: State, fd: int, writable: bool, err: bool, rdhup: bool, outcome: WriteOutcome, rearmed: bool)
    requires s.pc == Waiting && Deliverable(s.io, fd, false, writable, err, rdhup) && s.io.armed[fd] == ForWrite
    ensures var io := Handled(s.io, fd, false, writable, err, rdhup, ReadClosed, outcome, rearmed, s.now).0;
            Leads(s, [WriteEvent(fd, writable, err, rdhup, outcome, rearmed)], s.(io := io, pc := LoopTest))
  {
    LeadsOne(s, WriteEvent(fd, writable, err, rdhup, outcome, rearmed));
  }

  /** An event of the final drain: like any other, but a readable descriptor is closed. */
  lemma StopTurn(s: State, fd: int, readable: bool, writable: bool, err: bool, rdhup: bool,
                 outcome: WriteOutcome, rearmed: bool)
    requires s.pc == StopPoll && Deliverable(s.io, fd, readable, writable, err, rdhup)
    ensures var io := Handled(s.io, fd, false, writable, err || readable, rdhup, ReadClosed, outcome, rearmed, s.now).0;
            Leads(s, [StopEvent(fd, readable, writable, err, rdhup, outcome, rearmed)], s.(io := io, pc := StopCount))
  {
    LeadsOne(s, StopEvent(fd, readable, writable, err, rdhup, outcome, rearmed));
  }

  // ------------------------------------------------------------------- drains

  function Drained(s: State, kernel: seq<Flushed>, pc: IoPc): State
    requires |kernel| == |s.queue.items|
  {
    s.(io := DeliverEach(s.io, s.queue.items, kernel, s.now), pc := pc,
       queue := s.queue.(items := [], taken := s.queue.taken + s.queue.items))
  }

  /** Taking the queue and delivering all of it. */
  lemma DrainRun(s: State, kernel: seq<Flushed>)
    requires s.pc.Draining? && |kernel| == |s.queue.items|
    ensures Leads(s, [Drain] + (HandleSteps(kernel) + [EndBatch]),
                  Drained(s, kernel, if s.pc.stopping then StopPoll else LoopTest))
  {
    var s1 := Next(s, Drain);
    BatchIsRun(s1, kernel);
    var s2 := After(s1, HandleSteps(kernel));
    LeadsOne(s2, EndBatch);
    LeadsJoin(s1, HandleSteps(kernel), s2, [EndBatch], Next(s2, EndBatch));
    LeadsCons(s, Drain, HandleSteps(kernel) + [EndBatch], Next(s2, EndBatch));
  }

  /** A signal in epoll_wait: the eventfd is read and reset, then the queue is drained. */
  lemma SignalTurn(s: State, kernel: seq<Flushed>)
    requires s.pc == Waiting && s.queue.edge && s.queue.count > 0 && |kernel| == |s.queue.items|
    ensures Leads(s, [TakeSignal] + ([ReadEventFd] + ([Drain] + (HandleSteps(kernel) + [EndBatch]))),
                  Drained(s.(queue := s.queue.(edge := false, count := 0)), kernel, LoopTest))
  {
    var s1 := Next(s, TakeSignal);
    var s2 := Next(s1, ReadEventFd);
    var end := Drained(s.(queue := s.queue.(edge := false, count := 0)), kernel, LoopTest);
    DrainRun(s2, kernel);
    LeadsCons(s1, ReadEventFd, [Drain] + (HandleSteps(kernel) + [EndBatch]), end);
    LeadsCons(s, TakeSignal, [ReadEventFd] + ([Drain] + (HandleSteps(kernel) + [EndBatch])), end);
  }

  /** The condition of the drain loop: work is left exactly when the counter or the
      queue says so. */
  function DrainTest(s: State): seq<Step> {
    if s.pool.unfinished > 0 then [TestCounter] else [TestCounter, TestSize]
  }

  lemma DrainTestRun(s: State)
    requires s.pc == StopCount
    ensures Leads(s, DrainTest(s),
                  s.(pc := if s.pool.unfinished > 0 || s.queue.items != [] then Draining(true) else Finished))
  {
    var s1 := Next(s, TestCounter);
    if s.pool.unfinished > 0 {
      LeadsOne(s, TestCounter);
    } else {
      LeadsOne(s1, TestSize);
      LeadsCons(s, TestCounter, [TestSize], Next(s1, TestSize));
      assert [TestCounter] + [TestSize] == [TestCounter, TestSize];
    }
  }

  /** A turn of the drain loop with work left delivers everything queued and goes on to
      its epoll_wait, from which it comes back to the condition. */
  lemma DrainTurn(s: State, kernel: seq<Flushed>)
    requires s.pc == StopCount && (s.pool.unfinished > 0 || s.queue.items != []) && |kernel| == |s.queue.items|
    ensures Leads(s, DrainTest(s) + ([Drain] + (HandleSteps(kernel) + [EndBatch])), Drained(s, kernel, StopPoll))
    ensures Leads(Drained(s, kernel, StopPoll), [StopIdle], Drained(s, kernel, StopCount))
  {
    var s1 := s.(pc := Draining(true));
    DrainTestRun(s);
    DrainRun(s1, kernel);
    LeadsJoin(s, DrainTest(s), s1, [Drain] + (HandleSteps(kernel) + [EndBatch]), Drained(s, kernel, StopPoll));
    LeadsOne(Drained(s, kernel, StopPoll), StopIdle);
  }

  // ------------------------------------------------------------------ workers

  /** After one task: the worker is free again, the response is on the queue and has
      been signalled, and the counter is one lower. */
  function Worked(s: State, w: nat): State
    requires w < |s.pool.workers| && s.pool.tasks != []
  {
    var job := s.pool.tasks[0];
    s.(pool := s.pool.(tasks := s.pool.tasks[1..], popped := s.pool.popped + [job],
                       executed := s.pool.executed + [job], unfinished := s.pool.unfinished - 1),
       queue := s.queue.(items := s.queue.items + [job], pushed := s.queue.pushed + [job],
                         count := s.queue.count + if s.queue.fdSet then 1 else 0,
                         edge := s.queue.edge || s.queue.fdSet))
  }

  /** From the executed task on. */
  lemma ReportRun(s: State, w: nat)
    requires w < |s.pool.workers| && s.pool.workers[w] == Notifying && PoolStarted(s)
    ensures Leads(s, [NotifyIo(w)] + [SettleTask(w)],
                  NotifyFrom(s).(pool := s.pool.(workers := s.pool.workers[w := Free],
                                                 unfinished := s.pool.unfinished - 1)))
  {
    var s1 := Next(s, NotifyIo(w));
    LeadsOne(s1, SettleTask(w));
    LeadsCons(s, NotifyIo(w), [SettleTask(w)], Next(s1, SettleTask(w)));
  }

  /** The oldest task goes to any free worker of a started pool. */
  lemma WorkerTurn(s: State, w: nat)
    requires PoolStarted(s) && w < |s.pool.workers| && s.pool.workers[w] == Free && s.pool.tasks != []
    ensures Leads(s, [PopTask(w)] + ([FinishTask(w)] + ([NotifyIo(w)] + [SettleTask(w)])), Worked(s, w))
  {
    var s1 := Next(s, PopTask(w));
    var s2 := Next(s1, FinishTask(w));
    ReportRun(s2, w);
    assert s2.pool.workers[w := Free] == s.pool.workers;
    LeadsCons(s1, FinishTask(w), [NotifyIo(w)] + [SettleTask(w)], Worked(s, w));
    LeadsCons(s, PopTask(w), [FinishTask(w)] + ([NotifyIo(w)] + [SettleTask(w)]), Worked(s, w));
  }

  // ------------------------------------------------------ turns that do little

  /** The set-up stores the eventfd in the queue, then registers it; whatever has been
      written to it before is reported at once. */
  lemma SetUpTurn(s: State)
    requires s.pc == Setup
    ensures Leads(s, [SetEventFd, RegisterEventFd],
                  s.(pc := LoopTest, queue := s.queue.(fdSet := true, edge := s.queue.count > 0)))
  {
    var s1 := Next(s, SetEventFd);
    LeadsOne(s1, RegisterEventFd);
    LeadsCons(s, SetEventFd, [RegisterEventFd], Next(s1, RegisterEventFd));
    assert [SetEventFd] + [RegisterEventFd] == [SetEventFd, RegisterEventFd];
  }

  /** The loop condition: on to epoll_wait while nobody has asked to stop, and otherwise
      to the final drain. */
  lemma LoopTurn(s: State)
    requires s.pc == LoopTest
    ensures Leads(s, [TestRunning], s.(pc := if s.stopper == NotAsked then Waiting else StopCount))
  {
    LeadsOne(s, TestRunning);
  }

  /** An interrupted wait goes back to the condition, one that fails for another reason
      ends the worker without the drain, and a signal whose count is already read is
      used up; none of them does anything else. */
  lemma IdleTurn(s: State)
    requires s.pc == Waiting
    ensures Leads(s, [Interrupted], s.(pc := LoopTest))
    ensures Leads(s, [PollFails], s.(pc := Aborted))
    ensures s.queue.edge && s.queue.count == 0 ==> Leads(s, [SpuriousSignal], s.(queue := s.queue.(edge := false)))
  {
    LeadsOne(s, Interrupted);
    LeadsOne(s, PollFails);
    if Enabled(s, SpuriousSignal) { LeadsOne(s, SpuriousSignal); }
  }

  /** The wait of the final drain: a time-out or a signal goes back to its condition,
      and a failed wait ends the worker with what is left undelivered. */
  lemma StopIdleTurn(s: State)
    requires s.pc == StopPoll
    ensures Leads(s, [StopIdle], s.(pc := StopCount))
    ensures s.queue.edge ==> Leads(s, [StopSignal], s.(pc := StopCount, queue := s.queue.(edge := false)))
    ensures Leads(s, [PollFails], s.(pc := Aborted))
  {
    LeadsOne(s, StopIdle);
    LeadsOne(s, PollFails);
    if s.queue.edge { LeadsOne(s, StopSignal); }
  }

  /** A timer tick is the scan, with nothing else touched. */
  lemma TimerTurn(s: State)
    requires s.pc == Waiting
    ensures Leads(s, [TimerTick], s.(io := CheckTimeouts(s.io, s.now), pc := LoopTest))
  {
    LeadsOne(s, TimerTick);
  }

  /** The clock moves by itself and never back. */
  lemma ClockTurn(s: State, now: nat)
    ensures now >= s.now <==> Leads(s, [Tick(now)], s.(now := now))
  {
    if now >= s.now { LeadsOne(s, Tick(now)); }
  }

  /** The listening socket is ready: every pending client is accepted, then the loop
      goes on. */
  lemma AcceptTurn(s: State, pending: seq<Accepted>)
    requires s.pc == Waiting && FreshFds(s.io.open, pending)
    ensures Leads(s, [AcceptEvent] + (AcceptSteps(pending) + [EndAccept]),
                  s.(io := AcceptEach(s.io, pending, s.now), pc := LoopTest))
  {
    var s1 := Next(s, AcceptEvent);
    AcceptsAreRun(s1, pending);
    var s2 := After(s1, AcceptSteps(pending));
    LeadsOne(s2, EndAccept);
    LeadsJoin(s1, AcceptSteps(pending), s2, [EndAccept], Next(s2, EndAccept));
    LeadsCons(s, AcceptEvent, AcceptSteps(pending) + [EndAccept], Next(s2, EndAccept));
  }

  // ---------------------------------------------------------------- stopping

  lemma NotifyRun(s: State)
    requires s.stopper == QueueStopped && s.queue.fdSet
    ensures Leads(s, [NotifyStop],
                  s.(stopper := StopDone, queue := s.queue.(count := s.queue.count + 1,
                                                            edge := s.queue.edge || PoolStarted(s))))
  {
    LeadsOne(s, NotifyStop);
  }

  /** `stop()`: the flag is cleared, the queue is stopped, and one signal is written. */
  lemma StopSequence(s: State)
    requires s.stopper == NotAsked && s.queue.fdSet
    ensures Leads(s, [ClearRunning] + ([StopQueue] + [NotifyStop]),
                  s.(stopper := StopDone, queue := s.queue.(count := s.queue.count + 1,
                                                            edge := s.queue.edge || PoolStarted(s))))
  {
    var end := s.(stopper := StopDone, queue := s.queue.(count := s.queue.count + 1,
                                                         edge := s.queue.edge || PoolStarted(s)));
    NotifyRun(s.(stopper := QueueStopped));
    LeadsCons(s.(stopper := FlagCleared), StopQueue, [NotifyStop], end);
    LeadsCons(s, ClearRunning, [StopQueue] + [NotifyStop], end);
  }

  predicate Ended(s: State) {
    s.pc in {Finished, Aborted, Crashed}
  }

  /** Once the I/O worker has ended, the pool is stopped and a free worker with no task
      left goes away. */
  lemma PoolStopTurn(s: State, w: nat)
    requires Ended(s) && w < |s.pool.workers| && s.pool.workers[w] == Free && s.pool.tasks == []
    ensures Leads(s, [StopPool] + [LeavePool(w)],
                  s.(pool := s.pool.(stopped := true, workers := s.pool.workers[w := Gone])))
  {
    var s1 := Next(s, StopPool);
    LeadsOne(s1, LeavePool(w));
    LeadsCons(s, StopPool, [LeavePool(w)], Next(s1, LeavePool(w)));
  }

  lemma EndedSteps(s: State, step: Step)
    requires Ended(s) && Enabled(s, step)
    ensures IsWorkerStep(step) || IsOutsideStep(step)
  {
  }

  lemma WorkerApart(s: State, step: Step)
    requires Enabled(s, step) && IsWorkerStep(step)
    ensures var s' := Next(s, step); s'.pc == s.pc && s'.io == s.io && s'.queue.taken == s.queue.taken
  {
  }

  lemma OutsideApart(s: State, step: Step)
    requires Enabled(s, step) && IsOutsideStep(step)
    ensures var s' := Next(s, step); s'.pc == s.pc && s'.io == s.io && s'.queue.taken == s.queue.taken
  {
  }

  /** An I/O worker that has ended stays so in every run: it touches no connection and
      delivers nothing any more. */
  lemma {:induction false} EndedForGood(s: State, steps: seq<Step>)
    requires Ended(s) && Possible(s, steps)
    ensures var s' := After(s, steps); s'.pc == s.pc && s'.io == s.io && s'.queue.taken == s.queue.taken
    decreases |steps|
  {
    if steps != [] {
      EndedSteps(s, steps[0]);
      if IsWorkerStep(steps[0]) { WorkerApart(s, steps[0]); } else { OutsideApart(s, steps[0]); }
      EndedForGood(Next(s, steps[0]), steps[1..]);
    }
  }
}
