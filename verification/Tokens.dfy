/** One token per connection: what the handlers do to a connection's claim on
    the next move, given the multiset `flying` of requests and responses that
    are in some queue, in some worker's hands or in the reactor's batch. */
module Tokens {

  import opened Common
  import opened Reactor

  /** How many responses have gone out completely on connection `conn`. */
  function Answers(log: seq<Sent>, conn: nat): nat {
    if log == [] then 0
    else
      var last := log[|log| - 1];
      Answers(log[..|log| - 1], conn) + if last.complete && last.conn == conn then 1 else 0
  }

  /** Every write on a connection carries the answer to that connection's oldest
      unanswered request. */
  ghost predicate LogInOrder(log: seq<Sent>) {
    forall p :: 0 <= p < |log| ==>
      log[p].job.conn == log[p].conn && log[p].job.no == Answers(log[..p], log[p].conn)
  }

  /** The one request of this connection that has not been answered. */
  function Outstanding(fd: int, c: Connection): Job
    requires c.requests > 0
  {
    Job(fd, c.id, c.requests - 1)
  }

  ghost predicate NoneFlying(flying: multiset<Job>, conn: nat) {
    forall j :: j in flying ==> j.conn != conn
  }

  ghost predicate OneFlying(flying: multiset<Job>, job: Job) {
    flying[job] == 1 && forall j :: j in flying && j.conn == job.conn ==> j == job
  }

  /** Waiting for a request: everything asked so far is answered. */
  ghost predicate AwaitsRequest(c: Connection, flying: multiset<Job>, answers: nat) {
    NoneFlying(flying, c.id) && c.response == None && !c.parserMoved && !c.isProcessing && answers == c.requests
  }

  /** Part of a response is on its way out. */
  ghost predicate AwaitsWrite(fd: int, c: Connection, flying: multiset<Job>, answers: nat) {
    && c.requests > 0 && NoneFlying(flying, c.id) && c.response == Some(Outstanding(fd, c)) && !c.isProcessing
    && answers == c.requests - 1
  }

  /** The request or its response is somewhere between the read and the write. */
  ghost predicate AwaitsAnswer(fd: int, c: Connection, flying: multiset<Job>, answers: nat) {
    c.requests > 0 && OneFlying(flying, Outstanding(fd, c)) && c.response == None && answers == c.requests - 1
  }

  ghost predicate TokenOk(io: Io, fd: int, flying: multiset<Job>)
    requires fd in io.connections
  {
    var c := io.connections[fd];
    var answers := Answers(io.log, c.id);
    fd in io.armed &&
    match io.armed[fd]
    case ForRead => c.id !in io.parked && AwaitsRequest(c, flying, answers)
    case ForWrite => c.id !in io.parked && AwaitsWrite(fd, c, flying, answers)
    case Disarmed =>
      if c.id !in io.parked then AwaitsAnswer(fd, c, flying, answers)
      else if io.parked[c.id] == ForWrite then AwaitsWrite(fd, c, flying, answers)
      else AwaitsRequest(c, flying, answers)
  }

  ghost predicate TokensHeldBut(io: Io, fd: int, flying: multiset<Job>) {
    && DistinctIds(io.connections, io.nextId)
    && (forall g :: g in io.connections && g != fd ==> TokenOk(io, g, flying))
    && (forall j :: j in flying ==> j.conn <= io.nextId)
    && (forall id :: id in io.parked ==> id <= io.nextId)
    && (forall p :: 0 <= p < |io.log| ==> io.log[p].conn <= io.nextId)
    && LogInOrder(io.log)
  }

  ghost predicate TokensHeld(io: Io, flying: multiset<Job>) {
    && DistinctIds(io.connections, io.nextId)
    && (forall g :: g in io.connections ==> TokenOk(io, g, flying))
    && (forall j :: j in flying ==> j.conn <= io.nextId)
    && (forall id :: id in io.parked ==> id <= io.nextId)
    && (forall p :: 0 <= p < |io.log| ==> io.log[p].conn <= io.nextId)
    && LogInOrder(io.log)
  }

  // ------------------------------------------------------------------- frames

  /** Only the connection `conn` behind `fd` can differ, or be gone. */
  ghost predicate OnlyTouches(io: Io, io': Io, fd: int, conn: nat) {
    && io'.nextId == io.nextId
    && (forall g :: g != fd ==> (g in io'.connections <==> g in io.connections))
    && (forall g :: g != fd && g in io.connections ==> io'.connections[g] == io.connections[g])
    && (forall g :: g != fd && g in io.armed ==> g in io'.armed && io'.armed[g] == io.armed[g])
    && (forall id :: id != conn ==> (id in io'.parked <==> id in io.parked))
    && (forall id :: id != conn && id in io.parked ==> io'.parked[id] == io.parked[id])
    && |io.log| <= |io'.log| && io'.log[..|io.log|] == io.log
    && (forall p :: |io.log| <= p < |io'.log| ==> io'.log[p].conn == conn)
  }

  lemma {:induction false} AnswersFrame(log: seq<Sent>, more: seq<Sent>, id: nat)
    requires |log| <= |more| && more[..|log|] == log
    requires forall p :: |log| <= p < |more| ==> more[p].conn != id
    ensures Answers(more, id) == Answers(log, id)
    decreases |more|
  {
    if |log| == |more| {
      assert more == log;
    } else {
      var shorter := more[..|more| - 1];
      assert shorter[..|log|] == log;
      AnswersFrame(log, shorter, id);
    }
  }

  lemma Frame(io: Io, io': Io, fd: int, flying: multiset<Job>, flying': multiset<Job>)
    requires TokensHeldBut(io, fd, flying) && fd in io.connections
    requires OnlyTouches(io, io', fd, io.connections[fd].id)
    requires forall j: Job :: j.conn != io.connections[fd].id ==> flying'[j] == flying[j]
    requires fd in io'.connections ==> io'.connections[fd].id == io.connections[fd].id && TokenOk(io', fd, flying')
    requires LogInOrder(io'.log)
    ensures TokensHeld(io', flying')
  {
    var conn := io.connections[fd].id;
    forall g | g in io'.connections ensures TokenOk(io', g, flying') {
      if g != fd {
        assert TokenOk(io, g, flying);
        AnswersFrame(io.log, io'.log, io.connections[g].id);
        FlyingFrame(g, io.connections[g], flying, flying', conn);
      }
    }
    forall j | j in flying' ensures j.conn <= io'.nextId {
      if j.conn != conn { assert j in flying; }
    }
    forall p | 0 <= p < |io'.log| ensures io'.log[p].conn <= io'.nextId {
      if p < |io.log| { assert io'.log[p] == io'.log[..|io.log|][p]; }
    }
  }

  /** Jobs of other connections do not matter for this one. */
  lemma FlyingFrame(g: int, c: Connection, flying: multiset<Job>, flying': multiset<Job>, conn: nat)
    requires c.id != conn && forall j: Job :: j.conn != conn ==> flying'[j] == flying[j]
    ensures NoneFlying(flying, c.id) ==> NoneFlying(flying', c.id)
    ensures c.requests > 0 && OneFlying(flying, Outstanding(g, c)) ==> OneFlying(flying', Outstanding(g, c))
  {
    if c.requests > 0 && OneFlying(flying, Outstanding(g, c)) {
      forall j | j in flying' && j.conn == c.id ensures j == Outstanding(g, c) { assert j in flying; }
    }
    if NoneFlying(flying, c.id) {
      forall j | j in flying' ensures j.conn != c.id { if j.conn != conn { assert j in flying; } }
    }
  }

  lemma LogAppend(log: seq<Sent>, sent: Sent)
    requires LogInOrder(log) && sent.job.conn == sent.conn && sent.job.no == Answers(log, sent.conn)
    ensures LogInOrder(log + [sent])
    ensures Answers(log + [sent], sent.conn) == Answers(log, sent.conn) + if sent.complete then 1 else 0
  {
    var more := log + [sent];
    forall p | 0 <= p < |more|
      ensures more[p].job.conn == more[p].conn && more[p].job.no == Answers(more[..p], more[p].conn)
    {
      assert more[..p] == if p < |log| then log[..p] else log;
    }
    assert more[..|more| - 1] == log;
  }

  // ----------------------------------------------------------------- handlers

  /** A write with the outstanding response set. */
  ghost predicate ReadyToWrite(io: Io, fd: int, flying: multiset<Job>) {
    && fd in io.connections && fd in io.armed && io.connections[fd].id !in io.parked
    && AwaitsWrite(fd, io.connections[fd], flying, Answers(io.log, io.connections[fd].id))
  }

  lemma DoWriteRecords(io: Io, fd: int, outcome: WriteOutcome, rearmed: bool, now: nat)
    requires fd in io.connections && io.connections[fd].response.Some?
    ensures var c, io' := io.connections[fd], DoWrite(io, fd, outcome, rearmed, now);
            && io'.log == io.log + [Sent(c.id, c.response.value, outcome == WroteAll)]
            && io'.parked == io.parked && io'.nextId == io.nextId
  {
  }

  lemma DoWriteElsewhere(io: Io, fd: int, outcome: WriteOutcome, rearmed: bool, now: nat, g: int)
    requires fd in io.connections && g != fd
    ensures var io' := DoWrite(io, fd, outcome, rearmed, now);
            && (g in io'.connections <==> g in io.connections)
            && (g in io.connections ==> io'.connections[g] == io.connections[g])
            && (g in io.armed ==> g in io'.armed && io'.armed[g] == io.armed[g])
  {
  }

  lemma DoWriteTouches(io: Io, fd: int, outcome: WriteOutcome, rearmed: bool, now: nat)
    requires fd in io.connections && io.connections[fd].response.Some?
    ensures OnlyTouches(io, DoWrite(io, fd, outcome, rearmed, now), fd, io.connections[fd].id)
  {
    var io' := DoWrite(io, fd, outcome, rearmed, now);
    DoWriteRecords(io, fd, outcome, rearmed, now);
    forall g | g != fd
      ensures g in io'.connections <==> g in io.connections
      ensures g in io.connections ==> io'.connections[g] == io.connections[g]
      ensures g in io.armed ==> g in io'.armed && io'.armed[g] == io.armed[g]
    {
      DoWriteElsewhere(io, fd, outcome, rearmed, now, g);
    }
  }

  /** After the write the connection waits for the next request, for the rest of
      the write, or is gone. */
  lemma DoWriteSettles(io: Io, fd: int, outcome: WriteOutcome, rearmed: bool, now: nat, flying: multiset<Job>)
    requires ReadyToWrite(io, fd, flying)
    requires var io' := DoWrite(io, fd, outcome, rearmed, now); var id := io.connections[fd].id;
             Answers(io'.log, id) == Answers(io.log, id) + if outcome == WroteAll then 1 else 0
    ensures var io' := DoWrite(io, fd, outcome, rearmed, now);
            fd in io'.connections ==> io'.connections[fd].id == io.connections[fd].id && TokenOk(io', fd, flying)
  {
  }

  lemma DoWriteTokens(io: Io, fd: int, outcome: WriteOutcome, rearmed: bool, now: nat, flying: multiset<Job>)
    requires TokensHeldBut(io, fd, flying) && ReadyToWrite(io, fd, flying)
    ensures TokensHeld(DoWrite(io, fd, outcome, rearmed, now), flying)
  {
    var c := io.connections[fd];
    LogAppend(io.log, Sent(c.id, c.response.value, outcome == WroteAll));
    DoWriteRecords(io, fd, outcome, rearmed, now);
    DoWriteTouches(io, fd, outcome, rearmed, now);
    DoWriteSettles(io, fd, outcome, rearmed, now, flying);
    Frame(io, DoWrite(io, fd, outcome, rearmed, now), fd, flying, flying);
  }

  /** Work of a connection that is gone may be dropped. */
  lemma DropTokens(io: Io, item: Job, flying: multiset<Job>)
    requires TokensHeld(io, flying)
    requires forall g :: g in io.connections ==> io.connections[g].id != item.conn
    ensures TokensHeld(io, flying - multiset{item})
  {
    forall g | g in io.connections ensures TokenOk(io, g, flying - multiset{item}) {
      assert TokenOk(io, g, flying);
      FlyingFrame(g, io.connections[g], flying, flying - multiset{item}, item.conn);
    }
  }

  /** A response in flight finds its connection exactly if that connection lives:
      then it is the answer to the outstanding request. */
  lemma FlyingMeetsConnection(io: Io, item: Job, flying: multiset<Job>, fd: int)
    requires TokensHeld(io, flying) && item in flying && fd in io.connections && io.connections[fd].id == item.conn
    ensures item.fd == fd && io.connections[fd].requests > 0 && item == Outstanding(fd, io.connections[fd])
    ensures AwaitsAnswer(fd, io.connections[fd], flying, Answers(io.log, item.conn))
    ensures item.conn !in io.parked && fd in io.armed && io.armed[fd] == Disarmed
  {
    assert TokenOk(io, fd, flying);
  }

  lemma DeliverTokens(io: Io, item: Job, outcome: WriteOutcome, rearmed: bool, now: nat, flying: multiset<Job>)
    requires TokensHeld(io, flying) && item in flying
    ensures TokensHeld(Deliver(io, item, outcome, rearmed, now), flying - multiset{item})
  {
    if g :| g in io.connections && io.connections[g].id == item.conn {
      FlyingMeetsConnection(io, item, flying, g);
      AcceptResponse(io, item, flying);
      var c := io.connections[g].(isProcessing := false, response := Some(item));
      DoWriteTokens(io.(connections := io.connections[g := c]), g, outcome, rearmed, now, flying - multiset{item});
    } else {
      DropTokens(io, item, flying);
    }
  }

  lemma AcceptResponse(io: Io, item: Job, flying: multiset<Job>)
    requires TokensHeld(io, flying) && item in flying
    requires item.fd in io.connections && io.connections[item.fd].id == item.conn
    ensures var c := io.connections[item.fd].(isProcessing := false, response := Some(item));
            var io1 := io.(connections := io.connections[item.fd := c]);
            TokensHeldBut(io1, item.fd, flying - multiset{item}) && ReadyToWrite(io1, item.fd, flying - multiset{item})
  {
    FlyingMeetsConnection(io, item, flying, item.fd);
    var rest := flying - multiset{item};
    var c := io.connections[item.fd].(isProcessing := false, response := Some(item));
    var io1 := io.(connections := io.connections[item.fd := c]);
    forall g | g in io1.connections && g != item.fd ensures TokenOk(io1, g, rest) {
      assert TokenOk(io, g, flying);
      FlyingFrame(g, io.connections[g], flying, rest, item.conn);
    }
    assert NoneFlying(rest, c.id) by {
      forall j | j in rest ensures j.conn != c.id {
        assert j in flying && j != item;
      }
    }
  }

  lemma OnReadTouches(io: Io, fd: int, outcome: ReadOutcome, now: nat)
    requires fd in io.connections && fd in io.armed
    ensures var io' := OnRead(Disarm(io, fd, false), fd, outcome, now).0;
            OnlyTouches(io, io', fd, io.connections[fd].id) && io'.log == io.log
  {
  }

  /** The request, if one is complete, takes over the token. */
  lemma OnReadSettles(io: Io, fd: int, outcome: ReadOutcome, now: nat, flying: multiset<Job>)
    requires fd in io.connections && fd in io.armed && io.armed[fd] == ForRead && TokenOk(io, fd, flying)
    ensures var c := io.connections[fd];
            var (io', action) := OnRead(Disarm(io, fd, false), fd, outcome, now);
            var job := Job(fd, c.id, c.requests);
            && (action == Nothing || action == Respond(job) || action == Dispatch(job))
            && (fd in io'.connections ==>
                  && io'.connections[fd].id == c.id
                  && TokenOk(io', fd, if action == Nothing then flying else flying + multiset{job}))
  {
    var c := io.connections[fd];
    var (io', action) := OnRead(Disarm(io, fd, false), fd, outcome, now);
    if action != Nothing {
      var job := Job(fd, c.id, c.requests);
      assert job == Outstanding(fd, io'.connections[fd]);
      assert job !in flying;
    }
  }

  /** A read event on an armed connection. */
  lemma OnReadTokens(io: Io, fd: int, outcome: ReadOutcome, now: nat, flying: multiset<Job>)
    requires TokensHeld(io, flying) && fd in io.connections && fd in io.armed && io.armed[fd] == ForRead
    ensures var (io', action) := OnRead(Disarm(io, fd, false), fd, outcome, now);
            match action
            case Nothing => TokensHeld(io', flying)
            case Respond(job) => TokensHeld(io', flying + multiset{job})
            case Dispatch(job) => TokensHeld(io', flying + multiset{job})
            case UseAfterMove => false
  {
    assert TokenOk(io, fd, flying);
    OnReadTouches(io, fd, outcome, now);
    OnReadSettles(io, fd, outcome, now, flying);
    var (io', action) := OnRead(Disarm(io, fd, false), fd, outcome, now);
    var job := Job(fd, io.connections[fd].id, io.connections[fd].requests);
    Frame(io, io', fd, flying, if action == Nothing then flying else flying + multiset{job});
  }

  lemma FinishEventTokens(io: Io, fd: int, err: bool, rdhup: bool, flying: multiset<Job>)
    requires TokensHeld(io, flying)
    ensures TokensHeld(FinishEvent(io, fd, err, rdhup), flying)
  {
    if fd in io.connections {
      assert TokenOk(io, fd, flying);
      Frame(io, FinishEvent(io, fd, err, rdhup), fd, flying, flying);
    }
  }

  /** A bare EPOLLRDHUP parks the connection. */
  lemma ParkTokens(io: Io, fd: int, flying: multiset<Job>)
    requires TokensHeld(io, flying) && fd in io.connections && fd in io.armed && io.armed[fd] != Disarmed
    ensures TokensHeld(Disarm(io, fd, true), flying)
  {
    assert TokenOk(io, fd, flying);
    Frame(io, Disarm(io, fd, true), fd, flying, flying);
  }

  /** An event that ends in EPOLLERR or EPOLLHUP closes the connection. */
  lemma FailTokens(io: Io, fd: int, rdhup: bool, flying: multiset<Job>)
    requires TokensHeld(io, flying) && fd in io.connections && fd in io.armed
    ensures TokensHeld(FinishEvent(Disarm(io, fd, false), fd, true, rdhup), flying)
  {
    Frame(io, FinishEvent(Disarm(io, fd, false), fd, true, rdhup), fd, flying, flying);
  }

  lemma OnWriteTokens(io: Io, fd: int, outcome: WriteOutcome, rearmed: bool, now: nat, flying: multiset<Job>)
    requires TokensHeld(io, flying) && fd in io.connections && fd in io.armed && io.armed[fd] == ForWrite
    ensures TokensHeld(OnWrite(Disarm(io, fd, false), fd, outcome, rearmed, now), flying)
  {
    assert TokenOk(io, fd, flying);
    var io1 := Disarm(io, fd, false);
    forall g | g in io1.connections && g != fd ensures TokenOk(io1, g, flying) { assert TokenOk(io, g, flying); }
    DoWriteTokens(io1, fd, outcome, rearmed, now, flying);
  }

  lemma AcceptTokens(io: Io, fd: int, registered: bool, now: nat, flying: multiset<Job>)
    requires TokensHeld(io, flying) && fd !in io.connections && fd !in io.armed
    ensures TokensHeld(Accept(io, fd, registered, now), flying)
  {
    var io' := Accept(io, fd, registered, now);
    forall g | g in io'.connections ensures TokenOk(io', g, flying) {
      if g != fd { assert TokenOk(io, g, flying); }
      else { NoAnswersYet(io.log, io.nextId + 1); }
    }
  }

  lemma {:induction false} NoAnswersYet(log: seq<Sent>, id: nat)
    requires forall p :: 0 <= p < |log| ==> log[p].conn != id
    ensures Answers(log, id) == 0
  {
    if log != [] { NoAnswersYet(log[..|log| - 1], id); }
  }

  /** Closing any set of connections leaves the others alone. */
  lemma ShrinkTokens(io: Io, io': Io, gone: set<int>, flying: multiset<Job>)
    requires TokensHeld(io, flying)
    requires io'.connections == io.connections - gone && io'.armed == io.armed - gone
    requires io'.nextId == io.nextId && io'.parked == io.parked && io'.log == io.log
    ensures TokensHeld(io', flying)
  {
    forall g | g in io'.connections ensures TokenOk(io', g, flying) { assert TokenOk(io, g, flying); }
  }
}
