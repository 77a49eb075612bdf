/** The unbounded response queue with its eventfd (`shared_queue<T, true>`). */
module ResponseQueue {

  import opened Reactor

  datatype Queue = Queue(
    items: seq<Job>,
    fdSet: bool,         // set_event_fd has stored a descriptor
    count: nat,          // the eventfd counter
    edge: bool,          // the descriptor is on epoll's ready list
    pushed: seq<Job>,    // history: every response put on the queue
    direct: seq<Job>,    // history: those the I/O thread put there itself
    taken: seq<Job>)     // history: every response drained from it

  const EMPTY_QUEUE := Queue([], false, 0, false, [], [], [])

  function Push(q: Queue, job: Job): Queue {
    q.(items := q.items + [job], pushed := q.pushed + [job])
  }

  function PushDirect(q: Queue, job: Job): Queue {
    Push(q, job).(direct := q.direct + [job])
  }

  function DrainAll(q: Queue): Queue {
    q.(items := [], taken := q.taken + q.items)
  }

  /** `notify_event_fd`: without a stored descriptor nothing is written; a write
      raises an edge once the descriptor is in the epoll set. */
  function Notify(q: Queue, registered: bool): Queue {
    if !q.fdSet then q else q.(count := q.count + 1, edge := q.edge || registered)
  }

  /** epoll_wait would report the eventfd. */
  predicate Signalled(q: Queue) {
    q.edge && q.count > 0
  }
}
