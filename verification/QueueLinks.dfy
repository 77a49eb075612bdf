/** Both queues of the protocol are shared queues: every schedule acts on each of
    them as a run of whole locked operations.  The wake-up through the eventfd is
    the protocol's own business, so no descriptor is set here. */
module QueueLinks {

  import opened Common
  import opened Protocol
  import opened Reactor
  import opened ResponseQueue
  import opened ThreadPool
  import SharedQueues

  type Contents = SharedQueues.Contents<Job>
  type Operation = SharedQueues.Operation<Job>

  function TaskContents(p: Pool): Contents {
    SharedQueues.Contents(p.tasks, p.capacity, p.stopped, false, 0)
  }

  predicate ResponsesStopped(stopper: StopPc) {
    stopper == QueueStopped || stopper == StopDone
  }

  function ResponseContents(s: State): Contents {
    SharedQueues.Contents(s.queue.items, 0, ResponsesStopped(s.stopper), false, 0)
  }

  /** What a step does to the task queue: a refused push is an operation too, and so
      is the wait that tells a worker to leave. */
  function TaskOps(s: State, step: Step): seq<Operation>
    requires Enabled(s, step)
  {
    match step
    case EnqueueTask => [SharedQueues.Push(s.pc.job)]
    case PopTask(_) => [SharedQueues.WaitAndPop]
    case LeavePool(_) => [SharedQueues.WaitAndPop]
    case StopPool => [SharedQueues.Stop]
    case _ => []
  }

  function ResponseOps(s: State, step: Step): seq<Operation>
    requires Enabled(s, step)
  {
    match step
    case PushResponse => [SharedQueues.Push(s.pc.job)]
    case FinishTask(w) => [SharedQueues.Push(s.pool.workers[w].job)]
    case Drain => [SharedQueues.DrainTo]
    case StopQueue => [SharedQueues.Stop]
    case _ => []
  }

  /** The operations lead from one contents to the other, hand out `out` and take in `taken`. */
  ghost predicate Leads(q: Contents, ops: seq<Operation>, q': Contents, taken: seq<Job>, out: seq<Job>) {
    && SharedQueues.Runs(q, ops) && SharedQueues.After(q, ops) == q'
    && SharedQueues.AllTakenIn(q, ops) == taken && SharedQueues.AllHandedOut(q, ops) == out
  }

  lemma OneOperation(q: Contents, op: Operation)
    requires SharedQueues.Proceeds(q, op)
    ensures Leads(q, [op], SharedQueues.Apply(q, op), SharedQueues.TakenIn(q, op), SharedQueues.HandedOut(q, op))
  {
    var rest: seq<Operation> := [];
    assert [op][1..] == rest;
    assert SharedQueues.TakenIn(q, op) + [] == SharedQueues.TakenIn(q, op);
    assert SharedQueues.HandedOut(q, op) + [] == SharedQueues.HandedOut(q, op);
  }

  lemma NothingDone(q: Contents)
    ensures Leads(q, [], q, [], [])
  {
  }

  lemma {:induction false} LeadsOn(q: Contents, a: seq<Operation>, q1: Contents, in1: seq<Job>, out1: seq<Job>,
                                   b: seq<Operation>, q2: Contents, in2: seq<Job>, out2: seq<Job>)
    requires Leads(q, a, q1, in1, out1) && Leads(q1, b, q2, in2, out2)
    ensures Leads(q, a + b, q2, in1 + in2, out1 + out2)
    decreases |a|
  {
    if a == [] {
      assert a + b == b && [] + in2 == in2 && [] + out2 == out2;
    } else {
      var next, rest := SharedQueues.Apply(q, a[0]), a[1..];
      assert (a + b)[1..] == rest + b;
      var in0, out0 := SharedQueues.AllTakenIn(next, rest), SharedQueues.AllHandedOut(next, rest);
      LeadsOn(next, rest, q1, in0, out0, b, q2, in2, out2);
      assert in1 + in2 == SharedQueues.TakenIn(q, a[0]) + (in0 + in2);
      assert out1 + out2 == SharedQueues.HandedOut(q, a[0]) + (out0 + out2);
    }
  }

  // -------------------------------------------------------------- the task queue

  /** `ops` takes the task queue of `p` to that of `p'`, and the histories grow by
      exactly what it takes in and hands out. */
  ghost predicate TasksBy(p: Pool, ops: seq<Operation>, p': Pool, taken: seq<Job>, out: seq<Job>) {
    && Leads(TaskContents(p), ops, TaskContents(p'), taken, out)
    && p'.accepted == p.accepted + taken && p'.popped == p.popped + out
  }

  function TaskIn(s: State, step: Step): seq<Job>
    requires Enabled(s, step)
  {
    if step.EnqueueTask? && !IsFull(s.pool) then [s.pc.job] else []
  }

  function TaskOut(s: State, step: Step): seq<Job>
    requires Enabled(s, step)
  {
    if step.PopTask? then [s.pool.tasks[0]] else []
  }

  lemma TaskStep(s: State, step: Step)
    requires Enabled(s, step)
    ensures TasksBy(s.pool, TaskOps(s, step), Next(s, step).pool, TaskIn(s, step), TaskOut(s, step))
  {
    var q := TaskContents(s.pool);
    if step.EnqueueTask? {
      OneOperation(q, SharedQueues.Push(s.pc.job));
    } else if step.PopTask? || step.LeavePool? {
      OneOperation(q, SharedQueues.WaitAndPop);
    } else if step.StopPool? {
      OneOperation(q, SharedQueues.Stop);
    } else {
      QuietForTasks(s, step);
    }
  }

  predicate SameTasks(p: Pool, p': Pool) {
    TaskContents(p') == TaskContents(p) && p'.accepted == p.accepted && p'.popped == p.popped
  }

  lemma QuietForTasks(s: State, step: Step)
    requires Enabled(s, step) && !step.EnqueueTask? && !step.PopTask? && !step.LeavePool? && !step.StopPool?
    ensures TasksBy(s.pool, [], Next(s, step).pool, [], [])
  {
    if IsHandlerStep(step) { TasksQuietAtHandlers(s, step); }
    else if IsWorkerStep(step) { TasksQuietAtWorkers(s, step); }
    else if IsOutsideStep(step) { TasksQuietOutside(s, step); }
    else { TasksQuietInLoop(s, step); }
    NothingDone(TaskContents(s.pool));
  }

  lemma TasksQuietAtHandlers(s: State, step: Step)
    requires Enabled(s, step) && IsHandlerStep(step)
    ensures SameTasks(s.pool, Next(s, step).pool)
  {
  }

  lemma TasksQuietAtWorkers(s: State, step: Step)
    requires Enabled(s, step) && IsWorkerStep(step) && !step.PopTask? && !step.LeavePool?
    ensures SameTasks(s.pool, Next(s, step).pool)
  {
  }

  lemma TasksQuietOutside(s: State, step: Step)
    requires Enabled(s, step) && IsOutsideStep(step) && !step.StopPool?
    ensures SameTasks(s.pool, Next(s, step).pool)
  {
  }

  lemma TasksQuietInLoop(s: State, step: Step)
    requires Enabled(s, step) && !IsHandlerStep(step) && !IsOutsideStep(step) && !IsWorkerStep(step)
    requires !step.EnqueueTask? && !step.PopTask? && !step.LeavePool? && !step.StopPool?
    ensures SameTasks(s.pool, Next(s, step).pool)
  {
  }

  function TaskRun(s: State, steps: seq<Step>): seq<Operation>
    requires Possible(s, steps)
    decreases |steps|
  {
    if steps == [] then [] else TaskOps(s, steps[0]) + TaskRun(Next(s, steps[0]), steps[1..])
  }

  /** Every schedule is, for the task queue, a run of a shared queue; the tasks accepted
      are those it takes in and the tasks popped those it hands out, in order. */
  lemma {:induction false} TasksAreSharedQueue(s: State, steps: seq<Step>)
    requires Possible(s, steps)
    ensures var q, ops, p' := TaskContents(s.pool), TaskRun(s, steps), After(s, steps).pool;
            && SharedQueues.Runs(q, ops) && SharedQueues.After(q, ops) == TaskContents(p')
            && p'.accepted == s.pool.accepted + SharedQueues.AllTakenIn(q, ops)
            && p'.popped == s.pool.popped + SharedQueues.AllHandedOut(q, ops)
    decreases |steps|
  {
    if steps != [] {
      var s1, rest := Next(s, steps[0]), steps[1..];
      var q1, ops := TaskContents(s1.pool), TaskRun(s1, rest);
      TaskStep(s, steps[0]);
      TasksAreSharedQueue(s1, rest);
      TasksThen(s.pool, TaskOps(s, steps[0]), s1.pool, TaskIn(s, steps[0]), TaskOut(s, steps[0]), ops,
                After(s1, rest).pool, SharedQueues.AllTakenIn(q1, ops), SharedQueues.AllHandedOut(q1, ops));
    }
  }

  lemma TasksThen(p: Pool, a: seq<Operation>, p1: Pool, in1: seq<Job>, out1: seq<Job>,
                  b: seq<Operation>, p2: Pool, in2: seq<Job>, out2: seq<Job>)
    requires TasksBy(p, a, p1, in1, out1) && TasksBy(p1, b, p2, in2, out2)
    ensures TasksBy(p, a + b, p2, in1 + in2, out1 + out2)
  {
    LeadsOn(TaskContents(p), a, TaskContents(p1), in1, out1, b, TaskContents(p2), in2, out2);
    assert p.accepted + in1 + in2 == p.accepted + (in1 + in2);
    assert p.popped + out1 + out2 == p.popped + (out1 + out2);
  }

  // ---------------------------------------------------------- the response queue

  ghost predicate ResponsesBy(s: State, ops: seq<Operation>, s': State, taken: seq<Job>, out: seq<Job>) {
    && Leads(ResponseContents(s), ops, ResponseContents(s'), taken, out)
    && s'.queue.pushed == s.queue.pushed + taken && s'.queue.taken == s.queue.taken + out
  }

  function ResponseIn(s: State, step: Step): seq<Job>
    requires Enabled(s, step)
  {
    match step
    case PushResponse => [s.pc.job]
    case FinishTask(w) => [s.pool.workers[w].job]
    case _ => []
  }

  function ResponseOut(s: State, step: Step): seq<Job> {
    if step.Drain? then s.queue.items else []
  }

  lemma ResponsePushed(s: State, step: Step)
    requires Enabled(s, step) && (step.PushResponse? || step.FinishTask?)
    ensures ResponsesBy(s, ResponseOps(s, step), Next(s, step), ResponseIn(s, step), [])
  {
    var job := ResponseIn(s, step)[0];
    OneOperation(ResponseContents(s), SharedQueues.Push(job));
    assert ResponseContents(Next(s, step)) == SharedQueues.Apply(ResponseContents(s), SharedQueues.Push(job));
  }

  lemma ResponsesTaken(s: State, step: Step)
    requires Enabled(s, step) && (step.Drain? || step.StopQueue?)
    ensures ResponsesBy(s, ResponseOps(s, step), Next(s, step), [], ResponseOut(s, step))
  {
    OneOperation(ResponseContents(s), if step.Drain? then SharedQueues.DrainTo else SharedQueues.Stop);
  }

  lemma ResponseStep(s: State, step: Step)
    requires Enabled(s, step)
    ensures ResponsesBy(s, ResponseOps(s, step), Next(s, step), ResponseIn(s, step), ResponseOut(s, step))
  {
    if step.PushResponse? || step.FinishTask? { ResponsePushed(s, step); }
    else if step.Drain? || step.StopQueue? { ResponsesTaken(s, step); }
    else { QuietForResponses(s, step); }
  }

  predicate SameResponses(s: State, s': State) {
    ResponseContents(s') == ResponseContents(s) && s'.queue.pushed == s.queue.pushed && s'.queue.taken == s.queue.taken
  }

  lemma QuietForResponses(s: State, step: Step)
    requires Enabled(s, step) && !step.PushResponse? && !step.FinishTask? && !step.Drain? && !step.StopQueue?
    ensures ResponsesBy(s, [], Next(s, step), [], [])
  {
    if IsHandlerStep(step) { ResponsesQuietAtHandlers(s, step); }
    else if IsWorkerStep(step) { ResponsesQuietAtWorkers(s, step); }
    else if IsOutsideStep(step) { ResponsesQuietOutside(s, step); }
    else { ResponsesQuietInLoop(s, step); }
    NothingDone(ResponseContents(s));
  }

  lemma ResponsesQuietAtHandlers(s: State, step: Step)
    requires Enabled(s, step) && IsHandlerStep(step)
    ensures SameResponses(s, Next(s, step))
  {
  }

  lemma ResponsesQuietAtWorkers(s: State, step: Step)
    requires Enabled(s, step) && IsWorkerStep(step) && !step.FinishTask?
    ensures SameResponses(s, Next(s, step))
  {
  }

  lemma ResponsesQuietOutside(s: State, step: Step)
    requires Enabled(s, step) && IsOutsideStep(step) && !step.StopQueue?
    ensures SameResponses(s, Next(s, step))
  {
  }

  lemma ResponsesQuietInLoop(s: State, step: Step)
    requires Enabled(s, step) && !IsHandlerStep(step) && !IsOutsideStep(step) && !IsWorkerStep(step)
    requires !step.PushResponse? && !step.FinishTask? && !step.Drain? && !step.StopQueue?
    ensures SameResponses(s, Next(s, step))
  {
  }

  function ResponseRun(s: State, steps: seq<Step>): seq<Operation>
    requires Possible(s, steps)
    decreases |steps|
  {
    if steps == [] then [] else ResponseOps(s, steps[0]) + ResponseRun(Next(s, steps[0]), steps[1..])
  }

  /** The same of the response queue: every response pushed, drained in order. */
  lemma {:induction false} ResponsesAreSharedQueue(s: State, steps: seq<Step>)
    requires Possible(s, steps)
    ensures var q, ops, s' := ResponseContents(s), ResponseRun(s, steps), After(s, steps);
            && SharedQueues.Runs(q, ops) && SharedQueues.After(q, ops) == ResponseContents(s')
            && s'.queue.pushed == s.queue.pushed + SharedQueues.AllTakenIn(q, ops)
            && s'.queue.taken == s.queue.taken + SharedQueues.AllHandedOut(q, ops)
    decreases |steps|
  {
    if steps != [] {
      var s1, rest := Next(s, steps[0]), steps[1..];
      var q1, ops := ResponseContents(s1), ResponseRun(s1, rest);
      ResponseStep(s, steps[0]);
      ResponsesAreSharedQueue(s1, rest);
      ResponsesThen(s, ResponseOps(s, steps[0]), s1, ResponseIn(s, steps[0]), ResponseOut(s, steps[0]), ops,
                    After(s1, rest), SharedQueues.AllTakenIn(q1, ops), SharedQueues.AllHandedOut(q1, ops));
    }
  }

  lemma ResponsesThen(s: State, a: seq<Operation>, s1: State, in1: seq<Job>, out1: seq<Job>,
                      b: seq<Operation>, s2: State, in2: seq<Job>, out2: seq<Job>)
    requires ResponsesBy(s, a, s1, in1, out1) && ResponsesBy(s1, b, s2, in2, out2)
    ensures ResponsesBy(s, a + b, s2, in1 + in2, out1 + out2)
  {
    LeadsOn(ResponseContents(s), a, ResponseContents(s1), in1, out1, b, ResponseContents(s2), in2, out2);
    assert s.queue.pushed + in1 + in2 == s.queue.pushed + (in1 + in2);
    assert s.queue.taken + out1 + out2 == s.queue.taken + (out1 + out2);
  }
}
