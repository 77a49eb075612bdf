/** The mutex-protected queue: every method body runs under the lock, so a run is a
    sequence of whole operations in lock order. */
module SharedQueues {

  import opened Common

  /** `signals` is the eventfd counter; nothing is written before a descriptor is set. */
  datatype Contents<T> = Contents(items: seq<T>, capacity: nat, stopped: bool, fdSet: bool, signals: nat)

  datatype Operation<T> = Push(item: T) | WaitAndPop | DrainTo | Stop | SetEventFd

  /** Bounded and full: the push throws. */
  predicate Full<T>(q: Contents<T>) {
    q.capacity > 0 && |q.items| >= q.capacity
  }

  /** The operation gets past its wait. */
  predicate Proceeds<T>(q: Contents<T>, op: Operation<T>) {
    op.WaitAndPop? ==> q.items != [] || q.stopped
  }

  function Signal<T>(q: Contents<T>): Contents<T> {
    if q.fdSet then q.(signals := q.signals + 1) else q
  }

  function Apply<T>(q: Contents<T>, op: Operation<T>): Contents<T>
    requires Proceeds(q, op)
  {
    match op
    case Push(item) => if Full(q) then q else Signal(q.(items := q.items + [item]))
    case WaitAndPop => if q.items == [] then q else q.(items := q.items[1..])
    case DrainTo => q.(items := [])
    case Stop => Signal(q.(stopped := true))
    case SetEventFd => q.(fdSet := true)
  }

  /** What the operation gives its caller. */
  function HandedOut<T>(q: Contents<T>, op: Operation<T>): seq<T>
    requires Proceeds(q, op)
  {
    match op
    case WaitAndPop => if q.items == [] then [] else [q.items[0]]
    case DrainTo => q.items
    case _ => []
  }

  /** What the operation puts in. */
  function TakenIn<T>(q: Contents<T>, op: Operation<T>): seq<T> {
    if op.Push? && !Full(q) then [op.item] else []
  }

  /** Every operation of the run gets past its wait. */
  predicate Runs<T>(q: Contents<T>, ops: seq<Operation<T>>)
    decreases |ops|
  {
    ops == [] || (Proceeds(q, ops[0]) && Runs(Apply(q, ops[0]), ops[1..]))
  }

  function After<T>(q: Contents<T>, ops: seq<Operation<T>>): Contents<T>
    requires Runs(q, ops)
    decreases |ops|
  {
    if ops == [] then q else After(Apply(q, ops[0]), ops[1..])
  }

  function AllHandedOut<T>(q: Contents<T>, ops: seq<Operation<T>>): seq<T>
    requires Runs(q, ops)
    decreases |ops|
  {
    if ops == [] then [] else HandedOut(q, ops[0]) + AllHandedOut(Apply(q, ops[0]), ops[1..])
  }

  function AllTakenIn<T>(q: Contents<T>, ops: seq<Operation<T>>): seq<T>
    requires Runs(q, ops)
    decreases |ops|
  {
    if ops == [] then [] else TakenIn(q, ops[0]) + AllTakenIn(Apply(q, ops[0]), ops[1..])
  }

  lemma OneStepConserves<T>(q: Contents<T>, op: Operation<T>)
    requires Proceeds(q, op)
    ensures q.items + TakenIn(q, op) == HandedOut(q, op) + Apply(q, op).items
  {
  }

  /** First in, first out, exactly once: what was there and what was pushed, in
      order, is what was handed out followed by what is still there. */
  lemma {:induction false} FifoExactlyOnce<T>(q: Contents<T>, ops: seq<Operation<T>>)
    requires Runs(q, ops)
    ensures q.items + AllTakenIn(q, ops) == AllHandedOut(q, ops) + After(q, ops).items
    decreases |ops|
  {
    if ops != [] {
      var op, next, rest := ops[0], Apply(q, ops[0]), ops[1..];
      OneStepConserves(q, op);
      FifoExactlyOnce(next, rest);
      Regroup(q.items, TakenIn(q, op), AllTakenIn(next, rest), HandedOut(q, op), next.items);
      Regroup(HandedOut(q, op), AllHandedOut(next, rest), After(next, rest).items,
              HandedOut(q, op) + AllHandedOut(next, rest), []);
    }
  }

  lemma Regroup<T>(a: seq<T>, b: seq<T>, c: seq<T>, d: seq<T>, e: seq<T>)
    requires a + b == d + e
    ensures a + (b + c) == d + (e + c)
  {
    assert a + (b + c) == (a + b) + c;
    assert d + (e + c) == (d + e) + c;
  }

  /** A positive capacity is never exceeded. */
  lemma {:induction false} CapacityHolds<T>(q: Contents<T>, ops: seq<Operation<T>>)
    requires Runs(q, ops) && (q.capacity > 0 ==> |q.items| <= q.capacity)
    ensures After(q, ops).capacity == q.capacity
    ensures q.capacity > 0 ==> |After(q, ops).items| <= q.capacity
    decreases |ops|
  {
    if ops != [] { CapacityHolds(Apply(q, ops[0]), ops[1..]); }
  }

  class SharedQueue<T> {
    var items: seq<T>
    const capacity: nat
    var stopped: bool
    var fdSet: bool
    var signals: nat

    function View(): Contents<T>
      reads this
    {
      Contents(items, capacity, stopped, fdSet, signals)
    }

    constructor (capacity: nat)
      ensures View() == Contents([], capacity, false, false, 0)
    {
      this.capacity := capacity;
      items, stopped, fdSet, signals := [], false, false, 0;
    }

    method SetEventFd()
      modifies this`fdSet
      ensures View() == Apply(old(View()), Operation.SetEventFd) && fdSet
    {
      fdSet := true;
    }

    method NotifyEventFd()
      modifies this`signals
      ensures View() == Signal(old(View())) && signals == old(signals) + if fdSet then 1 else 0
    {
      if fdSet { signals := signals + 1; }
    }

    /** `accepted` is false when the push throws queue_full_error. */
    method Push(item: T) returns (accepted: bool)
      modifies this`items, this`signals
      ensures View() == Apply(old(View()), Operation.Push(item))
      ensures accepted <==> TakenIn(old(View()), Operation.Push(item)) == [item]
      ensures accepted <==> capacity == 0 || |old(items)| < capacity
      ensures items == old(items) + (if accepted then [item] else []) && stopped == old(stopped)
      ensures signals == old(signals) + if accepted && fdSet then 1 else 0
    {
      if capacity > 0 && |items| >= capacity {
        return false;
      }
      items := items + [item];
      NotifyEventFd();
      return true;
    }

    /** Entered when the wait is over; empty only when stopped and drained. */
    method WaitAndPop() returns (item: Option<T>)
      requires Proceeds(View(), Operation.WaitAndPop)
      modifies this`items
      ensures View() == Apply(old(View()), Operation.WaitAndPop)
      ensures HandedOut(old(View()), Operation.WaitAndPop) == if item.Some? then [item.value] else []
      ensures item.None? ==> stopped && items == []
      ensures old(items) == (if item.Some? then [item.value] else []) + items && (item.None? <==> old(items) == [])
    {
      if items == [] {
        return None;
      }
      item := Some(items[0]);
      items := items[1..];
    }

    method DrainTo(target: seq<T>) returns (result: seq<T>)
      modifies this`items
      ensures View() == Apply(old(View()), Operation.DrainTo)
      ensures result == target + HandedOut(old(View()), Operation.DrainTo)
      ensures result == target + old(items) && items == []
    {
      result := target;
      while items != []
        invariant result + items == target + old(items)
        decreases |items|
      {
        assert result + items == (result + [items[0]]) + items[1..];
        result := result + [items[0]];
        items := items[1..];
      }
      assert result + [] == result;
    }

    method Stop()
      modifies this`stopped, this`signals
      ensures View() == Apply(old(View()), Operation.Stop)
      ensures stopped && items == old(items) && signals == old(signals) + if fdSet then 1 else 0
    {
      stopped := true;
      NotifyEventFd();
    }
  }
}
