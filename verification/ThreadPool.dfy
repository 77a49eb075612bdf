/** The worker pool: the bounded task queue, the unfinished-task counter and the
    program counters of the workers, as one transition per shared access. */
module ThreadPool {

  import opened Reactor

  datatype WorkerPc =
    | Free               // in wait_and_pop
    | Running(job: Job)  // executing the handler
    | Notifying          // response queued, eventfd not yet written
    | Settling           // before m_unfinished_tasks.fetch_sub
    | Gone               // wait_and_pop returned nullopt

  datatype Pool = Pool(
    capacity: nat,           // 0 means unbounded
    tasks: seq<Job>,
    unfinished: int,
    stopped: bool,
    workers: seq<WorkerPc>,
    accepted: seq<Job>,      // history: every task push_task has accepted
    popped: seq<Job>,        // history: every task handed to a worker
    executed: seq<Job>)      // history: every task whose worker queued the response

  function NewPool(capacity: nat, workers: nat): Pool {
    Pool(capacity, [], 0, false, seq(workers, _ => Free), [], [], [])
  }

  // ------------------------------------------------------------- push_task

  function CountUp(p: Pool): Pool {
    p.(unfinished := p.unfinished + 1)
  }

  function CountDown(p: Pool): Pool {
    p.(unfinished := p.unfinished - 1)
  }

  predicate IsFull(p: Pool) {
    p.capacity > 0 && |p.tasks| >= p.capacity
  }

  function Enqueue(p: Pool, job: Job): Pool {
    p.(tasks := p.tasks + [job], accepted := p.accepted + [job])
  }

  // ----------------------------------------------------------- worker_loop

  predicate CanPop(p: Pool, w: nat) {
    w < |p.workers| && p.workers[w] == Free && p.tasks != []
  }

  function Pop(p: Pool, w: nat): Pool
    requires CanPop(p, w)
  {
    p.(workers := p.workers[w := Running(p.tasks[0])], popped := p.popped + [p.tasks[0]], tasks := p.tasks[1..])
  }

  function Finish(p: Pool, w: nat): Pool
    requires w < |p.workers| && p.workers[w].Running?
  {
    p.(workers := p.workers[w := Notifying], executed := p.executed + [p.workers[w].job])
  }

  function Notified(p: Pool, w: nat): Pool
    requires w < |p.workers|
  {
    p.(workers := p.workers[w := Settling])
  }

  function Settle(p: Pool, w: nat): Pool
    requires w < |p.workers|
  {
    CountDown(p).(workers := p.workers[w := Free])
  }

  /** `wait_and_pop` gives nullopt only when the queue is stopped and empty. */
  predicate CanLeave(p: Pool, w: nat) {
    w < |p.workers| && p.workers[w] == Free && p.tasks == [] && p.stopped
  }

  function Leave(p: Pool, w: nat): Pool
    requires w < |p.workers|
  {
    p.(workers := p.workers[w := Gone])
  }

  // ---------------------------------------------------------------- counts

  predicate IsBusy(pc: WorkerPc) {
    pc.Running? || pc == Notifying || pc == Settling
  }

  /** Workers that have a task and have not lowered the counter for it yet. */
  function Busy(ws: seq<WorkerPc>): nat {
    if ws == [] then 0 else (if IsBusy(ws[0]) then 1 else 0) + Busy(ws[1..])
  }

  function RunningJob(pc: WorkerPc): multiset<Job> {
    if pc.Running? then multiset{pc.job} else multiset{}
  }

  /** The tasks that workers are executing right now. */
  function RunningJobs(ws: seq<WorkerPc>): multiset<Job> {
    if ws == [] then multiset{} else RunningJob(ws[0]) + RunningJobs(ws[1..])
  }

  lemma {:induction false} BusyMoves(ws: seq<WorkerPc>, w: nat, pc: WorkerPc)
    requires w < |ws|
    ensures Busy(ws[w := pc]) + (if IsBusy(ws[w]) then 1 else 0) == Busy(ws) + (if IsBusy(pc) then 1 else 0)
  {
    if w == 0 {
      assert ws[0 := pc][1..] == ws[1..];
    } else {
      assert ws[w := pc][1..] == ws[1..][w - 1 := pc];
      BusyMoves(ws[1..], w - 1, pc);
    }
  }

  lemma {:induction false} RunningSame(ws: seq<WorkerPc>, w: nat, pc: WorkerPc)
    requires w < |ws| && !ws[w].Running? && !pc.Running?
    ensures RunningJobs(ws[w := pc]) == RunningJobs(ws)
  {
    if w == 0 {
      assert ws[0 := pc][1..] == ws[1..];
    } else {
      assert ws[w := pc][1..] == ws[1..][w - 1 := pc];
      RunningSame(ws[1..], w - 1, pc);
    }
  }

  /** Taking a task adds it to the running ones; the reverse step takes it away. */
  lemma {:induction false} RunningGains(ws: seq<WorkerPc>, w: nat, job: Job)
    requires w < |ws| && !ws[w].Running?
    ensures RunningJobs(ws[w := Running(job)]) == RunningJobs(ws) + multiset{job}
  {
    var ws' := ws[w := Running(job)];
    if w == 0 {
      assert ws'[1..] == ws[1..];
    } else {
      assert ws'[1..] == ws[1..][w - 1 := Running(job)];
      RunningGains(ws[1..], w - 1, job);
    }
  }

  lemma {:induction false} NobodyBusy(ws: seq<WorkerPc>)
    ensures Busy(ws) == 0 <==> forall w :: 0 <= w < |ws| ==> !IsBusy(ws[w])
    ensures Busy(ws) == 0 ==> RunningJobs(ws) == multiset{}
  {
    if ws != [] {
      NobodyBusy(ws[1..]);
      assert forall w :: 1 <= w < |ws| ==> ws[w] == ws[1..][w - 1];
      assert forall w :: 0 <= w < |ws| - 1 ==> ws[1..][w] == ws[w + 1];
    }
  }

  // ------------------------------------------------ accounting and FIFO order

  /** The counter counts queued tasks, tasks a worker still has in hand, and the
      `extra` pushes between their increment and their enqueue or roll-back. */
  predicate Accounted(p: Pool, extra: nat) {
    && p.unfinished == |p.tasks| + Busy(p.workers) + extra
    && (p.capacity > 0 ==> |p.tasks| <= p.capacity)
  }

  /** Tasks leave in the order they came in, each to one worker, and each worker
      either still runs its task or has queued the response. */
  predicate InOrder(p: Pool) {
    && p.accepted == p.popped + p.tasks
    && multiset(p.popped) == RunningJobs(p.workers) + multiset(p.executed)
  }

  lemma HeadTail(tasks: seq<Job>)
    requires tasks != []
    ensures multiset(tasks) == multiset(tasks[1..]) + multiset{tasks[0]}
  {
    assert tasks == [tasks[0]] + tasks[1..];
  }

  lemma PopKeepsCount(p: Pool, w: nat, extra: nat)
    requires CanPop(p, w) && Accounted(p, extra)
    ensures Accounted(Pop(p, w), extra)
  {
    BusyMoves(p.workers, w, Running(p.tasks[0]));
  }

  lemma PopConserves(p: Pool, w: nat)
    requires CanPop(p, w)
    ensures RunningJobs(Pop(p, w).workers) == RunningJobs(p.workers) + multiset{p.tasks[0]}
  {
    RunningGains(p.workers, w, p.tasks[0]);
  }

  lemma PopKeepsOrder(p: Pool, w: nat)
    requires CanPop(p, w) && InOrder(p)
    ensures InOrder(Pop(p, w))
  {
    var p', job := Pop(p, w), p.tasks[0];
    assert p'.accepted == p'.popped + p'.tasks;
    assert multiset(p'.popped) == RunningJobs(p'.workers) + multiset(p'.executed) by {
      PopConserves(p, w);
      assert multiset(p.popped + [job]) == multiset(p.popped) + multiset{job};
    }
  }

  lemma FinishConserves(p: Pool, w: nat)
    requires w < |p.workers| && p.workers[w].Running?
    ensures RunningJobs(p.workers) == RunningJobs(Finish(p, w).workers) + multiset{p.workers[w].job}
  {
    var job, ws := p.workers[w].job, p.workers[w := Notifying];
    RunningGains(ws, w, job);
    assert ws[w := Running(job)] == p.workers;
  }

  lemma FinishKeeps(p: Pool, w: nat, extra: nat)
    requires w < |p.workers| && p.workers[w].Running? && Accounted(p, extra) && InOrder(p)
    ensures Accounted(Finish(p, w), extra) && InOrder(Finish(p, w))
  {
    BusyMoves(p.workers, w, Notifying);
    FinishConserves(p, w);
  }

  lemma NotifiedKeeps(p: Pool, w: nat, extra: nat)
    requires w < |p.workers| && p.workers[w] == Notifying && Accounted(p, extra) && InOrder(p)
    ensures Accounted(Notified(p, w), extra) && InOrder(Notified(p, w))
    ensures RunningJobs(Notified(p, w).workers) == RunningJobs(p.workers)
  {
    BusyMoves(p.workers, w, Settling);
    RunningSame(p.workers, w, Settling);
  }

  lemma SettleKeeps(p: Pool, w: nat, extra: nat)
    requires w < |p.workers| && p.workers[w] == Settling && Accounted(p, extra) && InOrder(p)
    ensures Accounted(Settle(p, w), extra) && InOrder(Settle(p, w))
    ensures RunningJobs(Settle(p, w).workers) == RunningJobs(p.workers)
  {
    BusyMoves(p.workers, w, Free);
    RunningSame(p.workers, w, Free);
  }

  lemma LeaveKeeps(p: Pool, w: nat, extra: nat)
    requires CanLeave(p, w) && Accounted(p, extra) && InOrder(p)
    ensures Accounted(Leave(p, w), extra) && InOrder(Leave(p, w))
    ensures RunningJobs(Leave(p, w).workers) == RunningJobs(p.workers)
  {
    BusyMoves(p.workers, w, Gone);
    RunningSame(p.workers, w, Gone);
  }

  lemma EnqueueKeeps(p: Pool, job: Job, extra: nat)
    requires !IsFull(p) && extra > 0 && Accounted(p, extra) && InOrder(p)
    ensures Accounted(Enqueue(p, job), extra - 1) && InOrder(Enqueue(p, job))
  {
    assert p.accepted + [job] == p.popped + (p.tasks + [job]);
  }

  /** A counter of zero means that nothing is queued and nobody is at work. */
  lemma ZeroMeansIdle(p: Pool)
    requires Accounted(p, 0) && InOrder(p)
    ensures p.unfinished == 0 <==> p.tasks == [] && forall w :: 0 <= w < |p.workers| ==> !IsBusy(p.workers[w])
    ensures p.unfinished == 0 ==> multiset(p.accepted) == multiset(p.executed)
  {
    NobodyBusy(p.workers);
  }
}
