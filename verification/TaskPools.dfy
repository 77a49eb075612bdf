/** The thread pool's own code, one worker whose pool others push to between its
    turns; all interleavings are in ThreadPool and Protocol. */
module TaskPools {

  import opened Common
  import opened SharedQueues

  /** How many of `n` tasks a queue of this length accepts. */
  function Room(length: nat, capacity: nat, n: nat): (room: nat)
    ensures room <= n
  {
    if capacity == 0 || length + n <= capacity then n else if length >= capacity then 0 else capacity - length
  }

  /** The tasks accepted while one worker takes one task after each round, until it
      finds a stopped queue empty. */
  function Admitted<T>(length: nat, capacity: nat, stopped: bool, arrivals: seq<seq<T>>): seq<T>
    decreases |arrivals|
  {
    if arrivals == [] then []
    else
      var room := Room(length, capacity, |arrivals[0]|);
      arrivals[0][..room]
      + if length + room == 0 then if stopped then [] else Admitted(0, capacity, stopped, arrivals[1..])
        else Admitted(length + room - 1, capacity, stopped, arrivals[1..])
  }

  function Flatten<T>(rounds: seq<seq<T>>): seq<T> {
    if rounds == [] then [] else rounds[0] + Flatten(rounds[1..])
  }

  /** What the worker will have run in all. */
  function InAll<T>(executed: seq<T>, items: seq<T>, capacity: nat, stopped: bool, arrivals: seq<seq<T>>): seq<T> {
    executed + items + Admitted(|items|, capacity, stopped, arrivals)
  }

  /** The same seen after one round: `now` is queued, and if anything is, a task is taken. */
  lemma AfterRound<T>(executed: seq<T>, items: seq<T>, capacity: nat, stopped: bool, arrivals: seq<seq<T>>, now: seq<T>)
    requires arrivals != [] && now == items + arrivals[0][..Room(|items|, capacity, |arrivals[0]|)]
    ensures InAll(executed, items, capacity, stopped, arrivals)
            == if now != [] then InAll(executed + [now[0]], now[1..], capacity, stopped, arrivals[1..])
               else if stopped then executed else InAll(executed, [], capacity, stopped, arrivals[1..])
  {
    var got := arrivals[0][..Room(|items|, capacity, |arrivals[0]|)];
    var tail := if now != [] then Admitted(|now| - 1, capacity, stopped, arrivals[1..])
                else if stopped then [] else Admitted(0, capacity, stopped, arrivals[1..]);
    assert Admitted(|items|, capacity, stopped, arrivals) == got + tail;
    Regroup(executed, items, got, tail);
    if now != [] { TakeOne(executed, now); }
  }

  lemma Regroup<T>(a: seq<T>, b: seq<T>, c: seq<T>, d: seq<T>)
    ensures a + b + (c + d) == a + (b + c) + d
  {
  }

  lemma TakeOne<T>(executed: seq<T>, items: seq<T>)
    requires items != []
    ensures executed + items == (executed + [items[0]]) + items[1..]
  {
  }

  lemma AfterLastRound<T>(executed: seq<T>, items: seq<T>, capacity: nat, stopped: bool, stopped': bool)
    ensures InAll(executed, items, capacity, stopped, [])
            == if items != [] then InAll(executed + [items[0]], items[1..], capacity, stopped', []) else executed
  {
    if items != [] { TakeOne(executed, items); }
  }

  /** An unbounded running pool turns nothing away. */
  lemma {:induction false} UnboundedAdmitsAll<T>(length: nat, arrivals: seq<seq<T>>)
    ensures Admitted(length, 0, false, arrivals) == Flatten(arrivals)
    decreases |arrivals|
  {
    if arrivals != [] {
      assert arrivals[0][..|arrivals[0]|] == arrivals[0];
      UnboundedAdmitsAll(if length + |arrivals[0]| == 0 then 0 else length + |arrivals[0]| - 1, arrivals[1..]);
    }
  }

  class TaskPool<T(==)> {
    const queue: SharedQueue<T>
    var unfinished: int
    /** The tasks whose handlers have run, in order. */
    var executed: seq<T>

    /** The counter, less the tasks still queued: what is in other hands. */
    function Outstanding(): int
      reads this, queue
    {
      unfinished - |queue.items|
    }

    constructor (capacity: nat)
      ensures fresh(queue) && queue.View() == Contents([], capacity, false, false, 0)
      ensures Outstanding() == 0 && executed == []
    {
      queue := new SharedQueue(capacity);
      unfinished, executed := 0, [];
    }

    /** `push_task`: the counter goes up first and comes back down if the queue is
        full, so a refused push leaves nothing behind. */
    method PushTask(task: T) returns (accepted: bool)
      modifies this`unfinished, queue
      ensures accepted <==> !Full(old(queue.View()))
      ensures queue.View() == Apply(old(queue.View()), Operation.Push(task))
      ensures Outstanding() == old(Outstanding())
      ensures !accepted ==> unfinished == old(unfinished) && queue.items == old(queue.items)
      ensures accepted ==> queue.items == old(queue.items) + [task]
    {
      unfinished := unfinished + 1;
      accepted := queue.Push(task);
      if !accepted {
        unfinished := unfinished - 1;
      }
    }

    /** Other threads push one round of tasks. */
    method PushRound(tasks: seq<T>)
      modifies this`unfinished, queue
      ensures queue.items == old(queue.items) + tasks[..Room(|old(queue.items)|, queue.capacity, |tasks|)]
      ensures queue.stopped == old(queue.stopped)
      ensures Outstanding() == old(Outstanding())
    {
      var i := 0;
      while i < |tasks|
        invariant i <= |tasks|
        invariant queue.items == old(queue.items) + tasks[..Room(|old(queue.items)|, queue.capacity, i)]
        invariant queue.stopped == old(queue.stopped) && Outstanding() == old(Outstanding())
      {
        ghost var room := Room(|old(queue.items)|, queue.capacity, i);
        var accepted := PushTask(tasks[i]);
        if accepted { assert tasks[..i] + [tasks[i]] == tasks[..i + 1] && room == i; }
        i := i + 1;
      }
    }

    /** One turn of the loop past its wait; `left` when the queue is stopped and empty. */
    method TakeTask() returns (left: bool)
      requires queue.items != [] || queue.stopped
      modifies this`unfinished, this`executed, queue
      ensures left <==> old(queue.items) == []
      ensures queue.stopped == old(queue.stopped)
      ensures queue.items == if left then [] else old(queue.items)[1..]
      ensures executed == if left then old(executed) else old(executed) + [old(queue.items)[0]]
      ensures Outstanding() == old(Outstanding())
    {
      var task := queue.WaitAndPop();
      match task {
        case None =>
          left := true;
        case Some(job) =>
          executed := executed + [job];
          unfinished := unfinished - 1;
          left := false;
      }
    }

    /** `worker_loop`.  While the worker works or waits, the other threads push the next
        round of `arrivals`; when no more come, the pool is stopped.  The worker runs
        what was queued and what was accepted since, in order, and leaves nothing behind. */
    method WorkerLoop(arrivals: seq<seq<T>>)
      modifies this`unfinished, this`executed, queue
      ensures queue.items == [] && queue.stopped
      ensures executed == old(executed) + old(queue.items)
                          + Admitted(|old(queue.items)|, queue.capacity, old(queue.stopped), arrivals)
      ensures Outstanding() == old(Outstanding())
    {
      ghost var all := InAll(executed, queue.items, queue.capacity, queue.stopped, arrivals);
      var k, left := 0, false;
      assert arrivals[0..] == arrivals;
      while !left
        invariant k <= |arrivals|
        invariant Outstanding() == old(Outstanding())
        invariant !left ==> InAll(executed, queue.items, queue.capacity, queue.stopped, arrivals[k..]) == all
        invariant left ==> executed == all && queue.items == [] && queue.stopped
        decreases |arrivals| - k, !queue.stopped, |queue.items|, !left
      {
        ghost var items := queue.items;
        if k < |arrivals| {
          assert arrivals[k..][0] == arrivals[k] && arrivals[k..][1..] == arrivals[k + 1..];
          PushRound(arrivals[k]);
          AfterRound(executed, items, queue.capacity, queue.stopped, arrivals[k..], queue.items);
          k := k + 1;
        } else {
          AfterLastRound(executed, items, queue.capacity, queue.stopped, true);
          if !queue.stopped { queue.Stop(); }
        }
        if queue.items != [] || queue.stopped {
          left := TakeTask();
        }
      }
    }
  }
}
