/** The reactor's handlers as they run: fields updated in place, loops over the
    timeout list, the accept queue and the response batch.  The class invariant is
    the protocol's; what a method does is stated in terms of HandlerMeanings. */
module IoWorkers {

  import opened Common
  import opened HandlerMeanings
  import opened Protocol
  import opened Reactor
  import opened ReactorSound
  import opened TimeoutScan
  import opened Tokens

  class IoWorker {
    var connections: map<int, Connection>
    var timeouts: seq<Node>
    var nextId: nat
    var nextNode: nat
    var gauge: int
    var armed: map<int, Mask>
    var open: set<int>
    var parked: map<nat, Mask>
    var log: seq<Sent>

    function View(): Io
      reads this
    {
      Io(connections, timeouts, nextId, nextNode, gauge, armed, open, parked, log)
    }

    /** Map, list, epoll set and gauge agree, and every connection's next move is in
        one place, given the requests `flying` through the queues and the pool. */
    ghost predicate Valid(now: nat, flying: multiset<Job>)
      reads this
    {
      Sound(View(), now, false) && TokensHeld(View(), flying)
    }

    constructor ()
      ensures View() == EMPTY_IO
      ensures forall now: nat :: Valid(now, multiset{})
    {
      connections, timeouts, nextId, nextNode, gauge := map[], [], 0, 0, 0;
      armed, open, parked, log := map[], {}, map[], [];
    }

    method TouchConnection(fd: int, now: nat)
      requires fd in connections
      modifies this`connections, this`timeouts
      ensures View() == Touch(old(View()), fd, now)
      ensures old(Structure(View(), now)) ==> Structure(View(), now) && Touched(old(View()), View(), fd, now)
    {
      ghost var before := View();
      var c := connections[fd];
      connections := connections[fd := c.(lastActivity := now)];
      timeouts := MoveToEnd(timeouts, c.node);
      if Structure(before, now) { TouchMeaning(before, fd, now); }
    }

    method CloseConnection(fd: int, ghost now: nat)
      modifies this`connections, this`timeouts, this`armed, this`open, this`gauge
      ensures View() == Close(old(View()), fd)
      ensures old(Structure(View(), now)) ==> Structure(View(), now) && Removed(old(View()), View(), fd)
    {
      ghost var before := View();
      armed := armed - {fd};
      open := open - {fd};
      if fd in connections {
        timeouts := Erase(timeouts, connections[fd].node);
        connections := connections - {fd};
        gauge := gauge - 1;
      } else {
        assert connections - {fd} == connections;
      }
      assert View() == Close(before, fd);
      if Structure(before, now) { CloseMeaning(before, fd, now); }
    }

    method Rearm(fd: int, mask: Mask, succeeds: bool, ghost now: nat)
      modifies this`connections, this`timeouts, this`armed, this`open, this`gauge
      ensures View() == ModifyEpoll(old(View()), fd, mask, succeeds)
    {
      if succeeds {
        armed := armed[fd := mask];
      } else {
        CloseConnection(fd, now);
      }
    }

    method Register(fd: int, registered: bool, now: nat)
      modifies this
      ensures View() == Accept(old(View()), fd, registered, now)
    {
      var c := if fd in connections then connections[fd] else Connection(0, 0, now, false, false, None, false, 0);
      nextId := nextId + 1;
      connections := connections[fd := c.(id := nextId, node := nextNode)];
      timeouts := timeouts + [Node(nextNode, fd)];
      nextNode := nextNode + 1;
      if registered {
        armed := armed[fd := ForRead];
        open := open + {fd};
        gauge := gauge + 1;
      } else {
        connections := connections - {fd};
      }
    }

    /** The accept loop; `pending` is what the kernel hands out until EAGAIN. */
    method OnConnect(pending: seq<Accepted>, now: nat, ghost flying: multiset<Job>)
      requires Valid(now, flying) && FreshFds(open, pending)
      modifies this
      ensures Valid(now, flying) && AllAccepted(old(View()), View(), pending, now)
      ensures View() == AcceptEach(old(View()), pending, now)
    {
      var i := 0;
      while i < |pending|
        invariant i <= |pending|
        invariant AcceptEach(View(), pending[i..], now) == AcceptEach(old(View()), pending, now)
      {
        assert pending[i..][1..] == pending[i + 1..];
        Register(pending[i].fd, pending[i].registered, now);
        i := i + 1;
      }
      assert pending[i..] == [];
      AcceptsMeaning(old(View()), pending, now, flying);
    }

    /** Close an idle connection from the scan and erase the node it stands at. */
    method Expire(i: nat)
      requires i < |timeouts| && timeouts[i].fd in connections
      modifies this`connections, this`timeouts, this`armed, this`open, this`gauge
      ensures View() == Forget(old(View()), old(timeouts[i].fd)).(gauge := old(gauge) - 1,
                                                                 timeouts := RemoveAt(old(timeouts), i))
    {
      var fd := timeouts[i].fd;
      armed, open := armed - {fd}, open - {fd};
      gauge := gauge - 1;
      connections := connections - {fd};
      timeouts := RemoveAt(timeouts, i);
    }

    /** The timeout scan, erasing as it goes and stopping at the first node whose
        connection is recent enough. */
    method ScanTimeouts(now: nat)
      modifies this`connections, this`timeouts, this`armed, this`open, this`gauge
      ensures View() == CheckTimeouts(old(View()), now)
    {
      var i := 0;
      while i < |timeouts|
        invariant i <= |timeouts|
        invariant Scan(View(), i, now) == CheckTimeouts(old(View()), now)
        decreases |timeouts| - i
      {
        var fd := timeouts[i].fd;
        if fd !in connections {
          timeouts := RemoveAt(timeouts, i);
        } else if connections[fd].isProcessing {
          i := i + 1;
        } else if now - connections[fd].lastActivity <= READ_TIMEOUT {
          break;
        } else {
          Expire(i);
        }
      }
    }

    /** A tick of the timer closes exactly the expired connections, unless a left-over
        list node obstructs the scan, and never changes a survivor. */
    method OnTimerTick(now: nat, ghost flying: multiset<Job>)
      requires Valid(now, flying)
      modifies this`connections, this`timeouts, this`armed, this`open, this`gauge
      ensures Valid(now, flying)
      ensures forall fd :: fd in connections ==> fd in old(connections) && connections[fd] == old(connections)[fd]
      ensures ClosedExactlyExpired(old(connections), connections, now) <==> !old(Obstructed(View(), now))
    {
      ScanOutcome(View(), now, flying);
      ScanTimeouts(now);
    }

    /** One run of the write path; the byte loop itself is `HttpResponses.ResponseBuffer.Flush`. */
    method WriteResponse(fd: int, outcome: WriteOutcome, rearmed: bool, now: nat)
      requires fd in connections
      modifies this
      ensures View() == DoWrite(old(View()), fd, outcome, rearmed, now)
      ensures old(Structure(View(), now)) ==>
                && Structure(View(), now) && OthersUntouched(old(View()), View(), fd)
                && Written(old(View()), View(), fd, outcome, rearmed, now)
    {
      ghost var before := View();
      if Structure(before, now) { WriteMeaning(before, fd, outcome, rearmed, now); }
      if connections[fd].response.None? {
        return;
      }
      TouchConnection(fd, now);
      var c := connections[fd];
      log := log + [Sent(c.id, c.response.value, outcome == WroteAll)];
      match outcome
      case WouldBlock => Rearm(fd, ForWrite, rearmed, now);
      case WriteFailed => CloseConnection(fd, now);
      case WroteAll =>
        if c.closeAfterWrite {
          CloseConnection(fd, now);
        } else {
          connections := connections[fd := Reset(c, now)];
          TouchConnection(fd, now);
          Rearm(fd, ForRead, rearmed, now);
        }
    }

    /** The loop over a drained batch: each response whose connection lives is written
        to it, in order, the others are dropped, and nothing else is written. */
    method ProcessBatch(batch: seq<Job>, kernel: seq<Flushed>, now: nat, ghost flying: multiset<Job>)
      requires |kernel| == |batch|
      requires Valid(now, flying) && multiset(batch) <= flying
      modifies this
      ensures Valid(now, flying - multiset(batch))
      ensures log == old(log) + Answered(old(connections), batch, kernel)
      ensures View() == DeliverEach(old(View()), batch, kernel, now)
    {
      var i := 0;
      while i < |batch|
        invariant i <= |batch|
        invariant DeliverEach(View(), batch[i..], kernel[i..], now) == DeliverEach(old(View()), batch, kernel, now)
      {
        assert batch[i..][1..] == batch[i + 1..] && kernel[i..][1..] == kernel[i + 1..];
        var item := batch[i];
        if item.fd in connections && connections[item.fd].id == item.conn {
          connections := connections[item.fd := connections[item.fd].(isProcessing := false, response := Some(item))];
          WriteResponse(item.fd, kernel[i].outcome, kernel[i].rearmed, now);
        }
        i := i + 1;
      }
      assert batch[i..] == [] && kernel[i..] == [];
      BatchMeaning(old(View()), batch, kernel, now, flying);
    }

    method ReadFromSocket(fd: int, outcome: ReadOutcome, now: nat) returns (action: Action)
      requires fd in connections && !connections[fd].parserMoved
      modifies this
      ensures (View(), action) == OnRead(old(View()), fd, outcome, now)
    {
      TouchConnection(fd, now);
      var c := connections[fd];
      var job := Job(fd, c.id, c.requests);
      match outcome
      case ReadClosed =>
        CloseConnection(fd, now);
        return Nothing;
      case ReadIncomplete(rearmed) =>
        Rearm(fd, ForRead, rearmed, now);
        return Nothing;
      case ReadMalformed =>
        connections := connections[fd := c.(closeAfterWrite := true, requests := c.requests + 1)];
        return Respond(job);
      case ReadAnswered(hangup) =>
        connections := connections[fd := c.(closeAfterWrite := c.closeAfterWrite || hangup, parserMoved := true,
                                            requests := c.requests + 1)];
        return Respond(job);
      case ReadDispatched(hangup) =>
        connections := connections[fd := c.(closeAfterWrite := c.closeAfterWrite || hangup, parserMoved := true,
                                            isProcessing := true, requests := c.requests + 1)];
        return Dispatch(job);
    }

    /** The read path up to what goes to the shared queues. */
    method ReadRequest(fd: int, outcome: ReadOutcome, now: nat) returns (action: Action)
      modifies this
      ensures (View(), action) == OnRead(old(View()), fd, outcome, now)
      ensures fd !in old(connections) ==> View() == old(View()) && action == Nothing
      ensures fd in old(connections) ==> (action == UseAfterMove <==> old(connections)[fd].parserMoved)
      ensures fd in old(connections) && !old(connections)[fd].parserMoved && old(Structure(View(), now)) ==>
                && Structure(View(), now) && OthersUntouched(old(View()), View(), fd)
                && ReadBy(old(View()), View(), fd, outcome, action, now)
    {
      ghost var before := View();
      if fd !in connections {
        action := Nothing;
      } else if connections[fd].parserMoved {
        action := UseAfterMove;
      } else {
        action := ReadFromSocket(fd, outcome, now);
        if Structure(before, now) { ReadMeaning(before, fd, outcome, now); }
      }
    }

    /** What the kernel does to its one-shot registration when it delivers an event. */
    method TakeEvent(fd: int, bareRdhup: bool)
      modifies this`armed, this`parked
      ensures View() == Disarm(old(View()), fd, bareRdhup)
    {
      if bareRdhup && fd in connections && fd in armed {
        parked := parked[connections[fd].id := armed[fd]];
      }
      armed := armed[fd := Disarmed];
    }

    method FinishHandling(fd: int, err: bool, rdhup: bool, ghost now: nat)
      modifies this`connections, this`timeouts, this`armed, this`open, this`gauge
      ensures View() == FinishEvent(old(View()), fd, err, rdhup)
    {
      if err && fd in connections {
        CloseConnection(fd, now);
      } else if rdhup && fd in connections {
        connections := connections[fd := connections[fd].(closeAfterWrite := true)];
      }
    }

    /** One event of a client's descriptor.  What it hands over joins the flying
        requests, so that delivering that response later is allowed. */
    method HandleEvent(fd: int, readable: bool, writable: bool, err: bool, rdhup: bool,
                       result: ReadOutcome, outcome: WriteOutcome, rearmed: bool, now: nat, ghost flying: multiset<Job>)
      returns (action: Action)
      requires Valid(now, flying) && Deliverable(View(), fd, readable, writable, err, rdhup)
      modifies this
      ensures Valid(now, flying + HandedOver(action))
      ensures fd in old(connections) && EventEffect(old(View()), View(), fd, action, err, rdhup)
      ensures (View(), action)
              == Handled(old(View()), fd, readable, writable, err, rdhup, result, outcome, rearmed, now)
    {
      EventMeaning(View(), fd, readable, writable, err, rdhup, result, outcome, rearmed, now, flying);
      TakeEvent(fd, !readable && !writable && !err);
      action := Nothing;
      if readable {
        action := ReadRequest(fd, result, now);
      }
      if writable && fd in connections {
        WriteResponse(fd, outcome, rearmed, now);
      }
      FinishHandling(fd, err, rdhup, now);
    }
  }
}
