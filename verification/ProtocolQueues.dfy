/** What every step keeps about the shared queues, the unfinished-task counter,
    the eventfd and the stop sequence. */
module ProtocolQueues {

  import opened Common
  import opened Reactor
  import opened ThreadPool
  import opened ResponseQueue
  import opened Protocol

  // -------------------------------------------------- accounting and ordering

  /** Pushes between the increment and the enqueue or its roll-back. */
  function PushesUnderWay(pc: IoPc): nat {
    if pc.Enqueuing? || pc.RollingBack? then 1 else 0
  }

  predicate PoolInv(s: State) {
    Accounted(s.pool, PushesUnderWay(s.pc)) && InOrder(s.pool)
  }

  predicate ChangesPool(step: Step) {
    step.CountTask? || step.EnqueueTask? || step.RollBackTask? || step.StopPool?
  }

  lemma PoolStaysAtHandlers(s: State, step: Step)
    requires Enabled(s, step) && !IsWorkerStep(step) && !ChangesPool(step)
    requires IsHandlerStep(step)
    ensures Next(s, step).pool == s.pool && PushesUnderWay(Next(s, step).pc) == PushesUnderWay(s.pc)
  {
  }

  lemma PoolStaysElsewhere(s: State, step: Step)
    requires Enabled(s, step) && !IsWorkerStep(step) && !ChangesPool(step)
    requires !IsHandlerStep(step)
    ensures Next(s, step).pool == s.pool && PushesUnderWay(Next(s, step).pc) == PushesUnderWay(s.pc)
  {
  }

  lemma PoolStays(s: State, step: Step)
    requires Enabled(s, step) && !IsWorkerStep(step) && !ChangesPool(step)
    ensures Next(s, step).pool == s.pool && PushesUnderWay(Next(s, step).pc) == PushesUnderWay(s.pc)
  {
    if IsHandlerStep(step) { PoolStaysAtHandlers(s, step); } else { PoolStaysElsewhere(s, step); }
  }

  lemma PoolStepIo(s: State, step: Step)
    requires PoolInv(s) && Enabled(s, step) && !IsWorkerStep(step)
    ensures PoolInv(Next(s, step))
  {
    if step.EnqueueTask? && !IsFull(s.pool) { EnqueueKeeps(s.pool, s.pc.job, 1); }
    else if !ChangesPool(step) { PoolStays(s, step); }
  }

  lemma PoolStepWorker(s: State, step: Step)
    requires PoolInv(s) && Enabled(s, step) && IsWorkerStep(step)
    ensures PoolInv(Next(s, step))
  {
    var extra := PushesUnderWay(s.pc);
    match step
    case PopTask(w) => PopKeepsCount(s.pool, w, extra); PopKeepsOrder(s.pool, w);
    case FinishTask(w) => FinishKeeps(s.pool, w, extra);
    case NotifyIo(w) => NotifiedKeeps(s.pool, w, extra);
    case SettleTask(w) => SettleKeeps(s.pool, w, extra);
    case LeavePool(w) => LeaveKeeps(s.pool, w, extra);
  }

  predicate QueueInv(s: State) {
    && s.queue.pushed == s.queue.taken + s.queue.items
    && multiset(s.queue.pushed) == multiset(s.pool.executed) + multiset(s.queue.direct)
  }

  lemma QueueStaysAtHandlers(s: State, step: Step)
    requires Enabled(s, step) && !IsWorkerStep(step) && !step.PushResponse? && !step.Drain?
    requires IsHandlerStep(step)
    ensures var q, q' := s.queue, Next(s, step).queue;
            q'.items == q.items && q'.pushed == q.pushed && q'.taken == q.taken && q'.direct == q.direct
    ensures Next(s, step).pool.executed == s.pool.executed
  {
  }

  lemma QueueStaysElsewhere(s: State, step: Step)
    requires Enabled(s, step) && !IsWorkerStep(step) && !step.PushResponse? && !step.Drain?
    requires !IsHandlerStep(step)
    ensures var q, q' := s.queue, Next(s, step).queue;
            q'.items == q.items && q'.pushed == q.pushed && q'.taken == q.taken && q'.direct == q.direct
    ensures Next(s, step).pool.executed == s.pool.executed
  {
  }

  lemma QueueStays(s: State, step: Step)
    requires Enabled(s, step) && !IsWorkerStep(step) && !step.PushResponse? && !step.Drain?
    ensures var q, q' := s.queue, Next(s, step).queue;
            q'.items == q.items && q'.pushed == q.pushed && q'.taken == q.taken && q'.direct == q.direct
    ensures Next(s, step).pool.executed == s.pool.executed
  {
    if IsHandlerStep(step) { QueueStaysAtHandlers(s, step); } else { QueueStaysElsewhere(s, step); }
  }

  lemma QueueStepPush(s: State)
    requires QueueInv(s) && Enabled(s, PushResponse)
    ensures QueueInv(Next(s, PushResponse))
  {
    var q', job := Next(s, PushResponse).queue, s.pc.job;
    PushKeeps(s.queue, job);
    assert q'.items == s.queue.items + [job] && q'.pushed == s.queue.pushed + [job] && q'.taken == s.queue.taken;
    assert multiset(s.queue.direct + [job]) == multiset(s.queue.direct) + multiset{job};
  }

  lemma QueueStepIo(s: State, step: Step)
    requires QueueInv(s) && Enabled(s, step) && !IsWorkerStep(step)
    ensures QueueInv(Next(s, step))
  {
    if step.PushResponse? { QueueStepPush(s); }
    else if step.Drain? { assert s.queue.taken + s.queue.items + [] == s.queue.taken + s.queue.items; }
    else { QueueStays(s, step); }
  }

  lemma QueueStepWorker(s: State, step: Step)
    requires QueueInv(s) && Enabled(s, step) && IsWorkerStep(step)
    ensures QueueInv(Next(s, step))
  {
    if step.FinishTask? { PushKeeps(s.queue, s.pool.workers[step.w].job); }
  }

  lemma PushKeeps(q: Queue, job: Job)
    requires q.pushed == q.taken + q.items
    ensures Push(q, job).pushed == q.taken + Push(q, job).items
    ensures multiset(Push(q, job).pushed) == multiset(q.pushed) + multiset{job}
  {
  }

  // ------------------------------------------------------------------ wake-ups

  /** The reactor loop proper: set up, and not yet in the final drain. */
  predicate InMainLoop(pc: IoPc) {
    match pc
    case Setup | Registering | StopCount | StopSize | StopPoll | Finished | Aborted | Crashed => false
    case Draining(stopping) => !stopping
    case Batch(_, stopping) => !stopping
    case _ => true
  }

  predicate SomeNotifying(p: Pool) {
    exists w :: 0 <= w < |p.workers| && p.workers[w] == Notifying
  }

  /** Nothing runs before the set-up is complete. */
  predicate SetUpFirst(s: State) {
    && (s.pc == Setup <==> !s.queue.fdSet)
    && (!PoolStarted(s) ==> s.queue.items == [] && AllFree(s.pool.workers))
  }

  predicate AllFree(ws: seq<WorkerPc>) {
    forall w :: 0 <= w < |ws| ==> ws[w] == Free
  }

  /** A readable eventfd is on the ready list, or its event is being handled. */
  predicate EdgeKept(s: State) {
    InMainLoop(s.pc) && s.queue.count > 0 ==> s.queue.edge || s.pc == ReadSignal
  }

  /** Waiting responses have a deliverable event, an I/O thread on its way to them,
      or a pusher about to write the eventfd. */
  predicate NoneLost(s: State) {
    InMainLoop(s.pc) && s.queue.items != [] ==>
      Signalled(s.queue) || s.pc == ReadSignal || s.pc == Draining(false) || s.pc.Signalling? || SomeNotifying(s.pool)
  }

  /** A stop request is seen before the next epoll_wait or wakes it. */
  predicate StopSeen(s: State) {
    s.pc == Waiting && s.stopper == StopDone ==> Signalled(s.queue)
  }

  predicate WakeInv(s: State) {
    SetUpFirst(s) && EdgeKept(s) && NoneLost(s) && StopSeen(s)
  }

  lemma WorkersStay(s: State, step: Step)
    requires Enabled(s, step) && !IsWorkerStep(step)
    ensures Next(s, step).pool.workers == s.pool.workers
  {
  }

  lemma SetUpStepIoAtHandlers(s: State, step: Step)
    requires SetUpFirst(s) && Enabled(s, step) && !IsWorkerStep(step)
    requires IsHandlerStep(step)
    ensures SetUpFirst(Next(s, step))
  {
    WorkersStay(s, step);
  }

  lemma SetUpStepIoElsewhere(s: State, step: Step)
    requires SetUpFirst(s) && Enabled(s, step) && !IsWorkerStep(step)
    requires !IsHandlerStep(step)
    ensures SetUpFirst(Next(s, step))
  {
    WorkersStay(s, step);
  }

  lemma SetUpStepIo(s: State, step: Step)
    requires SetUpFirst(s) && Enabled(s, step) && !IsWorkerStep(step)
    ensures SetUpFirst(Next(s, step))
  {
    if IsHandlerStep(step) { SetUpStepIoAtHandlers(s, step); } else { SetUpStepIoElsewhere(s, step); }
  }

  lemma EdgeStepIoAtHandlers(s: State, step: Step)
    requires SetUpFirst(s) && EdgeKept(s) && Enabled(s, step) && !IsWorkerStep(step)
    requires IsHandlerStep(step)
    ensures EdgeKept(Next(s, step))
  {
  }

  lemma EdgeStepIoElsewhere(s: State, step: Step)
    requires SetUpFirst(s) && EdgeKept(s) && Enabled(s, step) && !IsWorkerStep(step)
    requires !IsHandlerStep(step)
    ensures EdgeKept(Next(s, step))
  {
  }

  lemma EdgeStepIo(s: State, step: Step)
    requires SetUpFirst(s) && EdgeKept(s) && Enabled(s, step) && !IsWorkerStep(step)
    ensures EdgeKept(Next(s, step))
  {
    if IsHandlerStep(step) { EdgeStepIoAtHandlers(s, step); } else { EdgeStepIoElsewhere(s, step); }
  }

  lemma LostStepIoAtHandlers(s: State, step: Step)
    requires SetUpFirst(s) && EdgeKept(s) && NoneLost(s) && Enabled(s, step) && !IsWorkerStep(step)
    requires IsHandlerStep(step)
    ensures NoneLost(Next(s, step))
  {
    WorkersStay(s, step);
  }

  lemma LostStepIoElsewhere(s: State, step: Step)
    requires SetUpFirst(s) && EdgeKept(s) && NoneLost(s) && Enabled(s, step) && !IsWorkerStep(step)
    requires !IsHandlerStep(step)
    ensures NoneLost(Next(s, step))
  {
    WorkersStay(s, step);
  }

  lemma LostStepIo(s: State, step: Step)
    requires SetUpFirst(s) && EdgeKept(s) && NoneLost(s) && Enabled(s, step) && !IsWorkerStep(step)
    ensures NoneLost(Next(s, step))
  {
    if IsHandlerStep(step) { LostStepIoAtHandlers(s, step); } else { LostStepIoElsewhere(s, step); }
  }

  lemma StopSeenStepAtHandlers(s: State, step: Step)
    requires SetUpFirst(s) && EdgeKept(s) && StopSeen(s) && Enabled(s, step)
    requires IsHandlerStep(step)
    ensures StopSeen(Next(s, step))
  {
  }

  lemma StopSeenStepElsewhere(s: State, step: Step)
    requires SetUpFirst(s) && EdgeKept(s) && StopSeen(s) && Enabled(s, step)
    requires !IsHandlerStep(step)
    ensures StopSeen(Next(s, step))
  {
  }

  lemma StopSeenStep(s: State, step: Step)
    requires SetUpFirst(s) && EdgeKept(s) && StopSeen(s) && Enabled(s, step)
    ensures StopSeen(Next(s, step))
  {
    if IsHandlerStep(step) { StopSeenStepAtHandlers(s, step); } else { StopSeenStepElsewhere(s, step); }
  }

  lemma WakeStepIo(s: State, step: Step)
    requires WakeInv(s) && Enabled(s, step) && !IsWorkerStep(step)
    ensures WakeInv(Next(s, step))
  {
    SetUpStepIo(s, step);
    EdgeStepIo(s, step);
    LostStepIo(s, step);
    StopSeenStep(s, step);
  }

  lemma WakeStepWorker(s: State, step: Step)
    requires WakeInv(s) && Enabled(s, step) && IsWorkerStep(step)
    ensures WakeInv(Next(s, step))
  {
    StopSeenStep(s, step);
    var s' := Next(s, step);
    forall v | 0 <= v < |s.pool.workers| && s.pool.workers[v] == Notifying
      ensures s'.pool.workers[v] == Notifying || Signalled(s'.queue) || !InMainLoop(s.pc) {}
    if step.FinishTask? { assert s'.pool.workers[step.w] == Notifying; }
  }

  // ------------------------------------------------------------ stop sequence

  predicate SomeGone(ws: seq<WorkerPc>) {
    exists w :: 0 <= w < |ws| && ws[w] == Gone
  }

  /** The drain loop has seen the counter at zero, then the queue empty. */
  predicate DrainSeen(s: State) {
    && (s.pc == StopSize || s.pc == Finished ==> s.pool.unfinished == 0)
    && (s.pc == Finished ==> s.queue.items == [])
  }

  /** The pool is stopped after the I/O thread has ended, and workers leave only then. */
  predicate PoolOutlives(s: State) {
    && (s.pool.stopped ==> s.pc == Finished || s.pc == Aborted || s.pc == Crashed)
    && (SomeGone(s.pool.workers) ==> s.pool.stopped && s.pool.tasks == [])
  }

  predicate StopInv(s: State) {
    DrainSeen(s) && PoolOutlives(s)
  }

  lemma DrainStepIoAtHandlers(s: State, step: Step)
    requires DrainSeen(s) && s.pool.unfinished >= 0 && Enabled(s, step) && !IsWorkerStep(step)
    requires IsHandlerStep(step)
    ensures DrainSeen(Next(s, step))
  {
  }

  lemma DrainStepIoElsewhere(s: State, step: Step)
    requires DrainSeen(s) && s.pool.unfinished >= 0 && Enabled(s, step) && !IsWorkerStep(step)
    requires !IsHandlerStep(step)
    ensures DrainSeen(Next(s, step))
  {
  }

  lemma DrainStepIo(s: State, step: Step)
    requires DrainSeen(s) && s.pool.unfinished >= 0 && Enabled(s, step) && !IsWorkerStep(step)
    ensures DrainSeen(Next(s, step))
  {
    if IsHandlerStep(step) { DrainStepIoAtHandlers(s, step); } else { DrainStepIoElsewhere(s, step); }
  }

  lemma PoolOutlivesIo(s: State, step: Step)
    requires PoolOutlives(s) && Enabled(s, step) && !IsWorkerStep(step)
    ensures PoolOutlives(Next(s, step))
  {
    WorkersStay(s, step);
  }

  lemma StopStepIo(s: State, step: Step)
    requires StopInv(s) && PoolInv(s) && Enabled(s, step) && !IsWorkerStep(step)
    ensures StopInv(Next(s, step))
  {
    DrainStepIo(s, step);
    PoolOutlivesIo(s, step);
  }

  lemma StopStepWorker(s: State, step: Step)
    requires StopInv(s) && PoolInv(s) && Enabled(s, step) && IsWorkerStep(step)
    ensures StopInv(Next(s, step))
  {
    NobodyBusy(s.pool.workers);
    var s' := Next(s, step);
    if w :| 0 <= w < |s'.pool.workers| && s'.pool.workers[w] == Gone {
      if step != LeavePool(w) { assert s.pool.workers[w] == Gone; }
    }
  }
}
