/** What the reactor's handlers mean to the rest of the server, in terms of the
    state before and after, and how their loops are runs of the protocol. */
module HandlerMeanings {

  import opened Common
  import opened Reactor
  import opened ReactorSound
  import opened TimeoutScan
  import opened Tokens
  import opened Protocol
  import opened ProtocolTokens

  /** What `accept4` and `add_to_epoll` give for one pending connection. */
  datatype Accepted = Accepted(fd: int, registered: bool)

  /** How the write of one drained item ends. */
  datatype Flushed = Flushed(outcome: WriteOutcome, rearmed: bool)

  /** Connection and epoll mask of every other descriptor are as before. */
  ghost predicate OthersUntouched(io: Io, io': Io, fd: int) {
    forall g :: g != fd ==>
      && (g in io'.connections <==> g in io.connections)
      && (g in io.connections ==> io'.connections[g] == io.connections[g])
      && (g in io'.armed <==> g in io.armed)
      && (g in io.armed ==> io'.armed[g] == io.armed[g])
  }

  predicate Gone(io: Io, fd: int) {
    fd !in io.connections && fd !in io.armed && fd !in io.open
  }

  // -------------------------------------------------------------- the list

  lemma SplicedList(list: seq<Node>, p: nat)
    requires p < |list|
    ensures multiset(RemoveAt(list, p)) + multiset{list[p]} == multiset(list)
  {
    assert list == list[..p] + [list[p]] + list[p + 1..];
  }

  /** Time-stamped, its node the last of the list, and no node lost. */
  ghost predicate Touched(io: Io, io': Io, fd: int, now: nat)
    requires fd in io.connections
  {
    && OthersUntouched(io, io', fd)
    && fd in io'.connections && io'.connections[fd] == io.connections[fd].(lastActivity := now)
    && io'.timeouts != [] && io'.timeouts[|io'.timeouts| - 1] == Node(io.connections[fd].node, fd)
    && multiset(io'.timeouts) == multiset(io.timeouts)
  }

  lemma TouchMeaning(io: Io, fd: int, now: nat)
    requires Structure(io, now) && fd in io.connections
    ensures Structure(Touch(io, fd, now), now) && Touched(io, Touch(io, fd, now), fd, now)
  {
    TouchKeepsStructure(io, fd, now);
    var list, own := io.timeouts, Node(io.connections[fd].node, fd);
    assert own in list;
    PositionOf(list, own, io.nextNode);
    SplicedList(list, Position(list, own.id));
  }

  /** Gone from map, epoll set and gauge, with its own list node and no other; for an
      unknown descriptor nothing changes. */
  ghost predicate Removed(io: Io, io': Io, fd: int) {
    && OthersUntouched(io, io', fd) && Gone(io', fd)
    && multiset(io.timeouts)
       == multiset(io'.timeouts)
          + (if fd in io.connections then multiset{Node(io.connections[fd].node, fd)} else multiset{})
  }

  lemma CloseMeaning(io: Io, fd: int, now: nat)
    requires Structure(io, now)
    ensures Structure(Close(io, fd), now) && Removed(io, Close(io, fd), fd)
  {
    if fd in io.connections {
      CloseKeepsStructure(io, fd, now);
      var list, own := io.timeouts, Node(io.connections[fd].node, fd);
      assert own in list;
      PositionOf(list, own, io.nextNode);
      SplicedList(list, Position(list, own.id));
    } else {
      assert io.connections - {fd} == io.connections && io.armed - {fd} == io.armed && io.open - {fd} == io.open;
    }
  }

  // ------------------------------------------------------------- write, read

  /** The connection after a run of the write path. */
  ghost predicate Written(io: Io, io': Io, fd: int, outcome: WriteOutcome, rearmed: bool, now: nat)
    requires fd in io.connections
  {
    var c := io.connections[fd];
    if c.response.None? then io' == io
    else
      && io'.log == io.log + [Sent(c.id, c.response.value, outcome == WroteAll)]
      && if outcome == WriteFailed || !rearmed || (outcome == WroteAll && c.closeAfterWrite) then Gone(io', fd)
         else
           && fd in io'.connections && fd in io'.armed
           && if outcome == WouldBlock
              then io'.armed[fd] == ForWrite && io'.connections[fd] == c.(lastActivity := now)
              else io'.armed[fd] == ForRead
                   && io'.connections[fd] == Connection(c.id, c.node, now, false, false, None, false, c.requests)
  }

  lemma WriteMeaning(io: Io, fd: int, outcome: WriteOutcome, rearmed: bool, now: nat)
    requires Structure(io, now) && fd in io.connections
    ensures var io' := DoWrite(io, fd, outcome, rearmed, now);
            Structure(io', now) && OthersUntouched(io, io', fd) && Written(io, io', fd, outcome, rearmed, now)
  {
    DoWriteSound(io, fd, outcome, rearmed, now, false);
  }

  /** The connection after a read event, and what is asked of the queues. */
  ghost predicate ReadBy(io: Io, io': Io, fd: int, outcome: ReadOutcome, action: Action, now: nat)
    requires fd in io.connections
  {
    var c := io.connections[fd].(lastActivity := now);
    var job := Job(fd, c.id, c.requests);
    match outcome
    case ReadClosed => Gone(io', fd) && action == Nothing
    case ReadIncomplete(rearmed) =>
      && action == Nothing
      && if !rearmed then Gone(io', fd)
         else
           && fd in io'.connections && fd in io'.armed && io'.armed[fd] == ForRead && io'.connections[fd] == c
    case ReadMalformed =>
      && action == Respond(job) && NotRearmed(io, io', fd)
      && io'.connections[fd] == c.(requests := c.requests + 1, closeAfterWrite := true)
    case ReadAnswered(hangup) =>
      && action == Respond(job) && NotRearmed(io, io', fd)
      && io'.connections[fd] == c.(requests := c.requests + 1, parserMoved := true,
                                   closeAfterWrite := c.closeAfterWrite || hangup)
    case ReadDispatched(hangup) =>
      && action == Dispatch(job) && NotRearmed(io, io', fd)
      && io'.connections[fd] == c.(requests := c.requests + 1, parserMoved := true, isProcessing := true,
                                   closeAfterWrite := c.closeAfterWrite || hangup)
  }

  /** Still there, and its mask as it was. */
  ghost predicate NotRearmed(io: Io, io': Io, fd: int) {
    fd in io'.connections && (fd in io.armed ==> fd in io'.armed && io'.armed[fd] == io.armed[fd])
  }

  lemma ReadMeaning(io: Io, fd: int, outcome: ReadOutcome, now: nat)
    requires Structure(io, now) && fd in io.connections && !io.connections[fd].parserMoved
    ensures var (io', action) := OnRead(io, fd, outcome, now);
            && Structure(io', now) && OthersUntouched(io, io', fd) && io'.log == io.log
            && ReadBy(io, io', fd, outcome, action, now)
  {
    hide Structure;
    OnReadSound(io, fd, outcome, now, false);
  }

  // ---------------------------------------------------------------- one event

  /** `handle_epoll_event` for a client's descriptor, its one-shot mask spent by the delivery. */
  function Handled(io: Io, fd: int, readable: bool, writable: bool, err: bool, rdhup: bool,
                   result: ReadOutcome, outcome: WriteOutcome, rearmed: bool, now: nat): (Io, Action)
  {
    var io1 := Disarm(io, fd, !readable && !writable && !err);
    var (io2, action) := if readable then OnRead(io1, fd, result, now) else (io1, Nothing);
    var io3 := if writable then OnWrite(io2, fd, outcome, rearmed, now) else io2;
    (FinishEvent(io3, fd, err, rdhup), action)
  }

  /** The request that an action hands to the queues. */
  function HandedOver(action: Action): multiset<Job> {
    match action
    case Respond(job) => multiset{job}
    case Dispatch(job) => multiset{job}
    case _ => multiset{}
  }

  /** An event hands over the pending request of its connection or nothing; after
      EPOLLERR or EPOLLHUP the connection is gone, after EPOLLRDHUP alone it closes
      with its next response. */
  ghost predicate EventEffect(io: Io, io': Io, fd: int, action: Action, err: bool, rdhup: bool)
    requires fd in io.connections
  {
    && OthersUntouched(io, io', fd)
    && (action == Nothing || action.Respond? || action.Dispatch?)
    && HandedOver(action) <= multiset{Job(fd, io.connections[fd].id, io.connections[fd].requests)}
    && EventEnded(io', fd, err, rdhup)
  }

  /** An event that is neither an error nor a hang-up ends without any effect. */
  lemma QuietEnd(io: Io, fd: int)
    ensures FinishEvent(io, fd, false, false) == io
  {
  }

  predicate EventEnded(io: Io, fd: int, err: bool, rdhup: bool) {
    if err then Gone(io, fd) else rdhup && fd in io.connections ==> io.connections[fd].closeAfterWrite
  }

  lemma FinishMeaning(io: Io, fd: int, err: bool, rdhup: bool, now: nat, flying: multiset<Job>)
    requires Sound(io, now, false) && TokensHeld(io, flying)
    ensures var io' := FinishEvent(io, fd, err, rdhup);
            && Sound(io', now, false) && TokensHeld(io', flying) && OthersUntouched(io, io', fd)
            && EventEnded(io', fd, err, rdhup)
  {
    FinishEventSound(io, fd, err, rdhup, now, false);
    FinishEventTokens(io, fd, err, rdhup, flying);
    if err { CloseMeaning(io, fd, now); }
  }

  lemma UntouchedTwice(io: Io, io1: Io, io2: Io, fd: int)
    requires OthersUntouched(io, io1, fd) && OthersUntouched(io1, io2, fd)
    ensures OthersUntouched(io, io2, fd)
  {
  }

  lemma DisarmMeaning(io: Io, fd: int, bareRdhup: bool, now: nat)
    requires Sound(io, now, false) && fd in io.armed
    ensures var io' := Disarm(io, fd, bareRdhup);
            Sound(io', now, false) && OthersUntouched(io, io', fd) && io'.connections == io.connections
  {
    DisarmSound(io, fd, bareRdhup, now, false);
  }

  lemma ArmedForRead(io: Io, fd: int, flying: multiset<Job>)
    requires TokensHeld(io, flying) && fd in io.connections && fd in io.armed && io.armed[fd] == ForRead
    ensures !io.connections[fd].parserMoved
  {
    assert TokenOk(io, fd, flying);
  }

  lemma ReadTokens(io: Io, fd: int, result: ReadOutcome, now: nat, flying: multiset<Job>)
    requires TokensHeld(io, flying) && fd in io.connections && fd in io.armed && io.armed[fd] == ForRead
    ensures var (io2, action) := OnRead(Disarm(io, fd, false), fd, result, now);
            TokensHeld(io2, flying + HandedOver(action))
  {
    OnReadTokens(io, fd, result, now, flying);
    var (io2, action) := OnRead(Disarm(io, fd, false), fd, result, now);
    if action == Nothing { assert flying + HandedOver(action) == flying; }
  }

  lemma ReadHandsOver(io: Io, fd: int, result: ReadOutcome, now: nat)
    requires fd in io.connections && !io.connections[fd].parserMoved
    ensures var action := OnRead(io, fd, result, now).1;
            && (action == Nothing || action.Respond? || action.Dispatch?)
            && HandedOver(action) <= multiset{Job(fd, io.connections[fd].id, io.connections[fd].requests)}
  {
  }

  lemma ReadEventMeaning(io: Io, fd: int, err: bool, rdhup: bool, result: ReadOutcome, now: nat, flying: multiset<Job>)
    requires Sound(io, now, false) && TokensHeld(io, flying) && Deliverable(io, fd, true, false, err, rdhup)
    ensures var (io2, action) := OnRead(Disarm(io, fd, false), fd, result, now);
            var io' := FinishEvent(io2, fd, err, rdhup);
            && fd in io.connections && EventEffect(io, io', fd, action, err, rdhup)
            && Sound(io', now, false) && TokensHeld(io', flying + HandedOver(action))
  {
    var io1 := Disarm(io, fd, false);
    var (io2, action) := OnRead(io1, fd, result, now);
    var io' := FinishEvent(io2, fd, err, rdhup);
    DisarmMeaning(io, fd, false, now);
    ArmedForRead(io, fd, flying);
    ReadTokens(io, fd, result, now, flying);
    ReadHandsOver(io1, fd, result, now);
    assert Sound(io2, now, false) && OthersUntouched(io1, io2, fd) by { ReadMeaning(io1, fd, result, now); }
    FinishMeaning(io2, fd, err, rdhup, now, flying + HandedOver(action));
    UntouchedTwice(io, io1, io2, fd);
    UntouchedTwice(io, io2, io', fd);
  }

  lemma WriteStage(io: Io, fd: int, outcome: WriteOutcome, rearmed: bool, now: nat, flying: multiset<Job>)
    requires Sound(io, now, false) && TokensHeld(io, flying)
    requires fd in io.connections && fd in io.armed && io.armed[fd] == ForWrite
    ensures var io2 := OnWrite(Disarm(io, fd, false), fd, outcome, rearmed, now);
            Sound(io2, now, false) && TokensHeld(io2, flying) && OthersUntouched(io, io2, fd)
  {
    var io1 := Disarm(io, fd, false);
    DisarmMeaning(io, fd, false, now);
    OnWriteTokens(io, fd, outcome, rearmed, now, flying);
    WriteMeaning(io1, fd, outcome, rearmed, now);
    UntouchedTwice(io, io1, DoWrite(io1, fd, outcome, rearmed, now), fd);
  }

  lemma WriteEventMeaning(io: Io, fd: int, err: bool, rdhup: bool, outcome: WriteOutcome, rearmed: bool, now: nat,
                          flying: multiset<Job>)
    requires Sound(io, now, false) && TokensHeld(io, flying) && Deliverable(io, fd, false, true, err, rdhup)
    ensures var io' := FinishEvent(OnWrite(Disarm(io, fd, false), fd, outcome, rearmed, now), fd, err, rdhup);
            && fd in io.connections && EventEffect(io, io', fd, Nothing, err, rdhup)
            && Sound(io', now, false) && TokensHeld(io', flying)
  {
    var io2 := OnWrite(Disarm(io, fd, false), fd, outcome, rearmed, now);
    WriteStage(io, fd, outcome, rearmed, now, flying);
    FinishMeaning(io2, fd, err, rdhup, now, flying);
    UntouchedTwice(io, io2, FinishEvent(io2, fd, err, rdhup), fd);
  }

  lemma HangupEffect(io: Io, fd: int, err: bool, rdhup: bool, now: nat)
    requires Sound(io, now, false) && fd in io.connections && fd in io.armed
    ensures EventEffect(io, FinishEvent(Disarm(io, fd, !err), fd, err, rdhup), fd, Nothing, err, rdhup)
  {
    var io1 := Disarm(io, fd, !err);
    DisarmMeaning(io, fd, !err, now);
    if err { CloseMeaning(io1, fd, now); }
    UntouchedTwice(io, io1, FinishEvent(io1, fd, err, rdhup), fd);
  }

  lemma HangupMeaning(io: Io, fd: int, err: bool, rdhup: bool, now: nat, flying: multiset<Job>)
    requires Sound(io, now, false) && TokensHeld(io, flying) && Deliverable(io, fd, false, false, err, rdhup)
    ensures var io' := FinishEvent(Disarm(io, fd, !err), fd, err, rdhup);
            && fd in io.connections && EventEffect(io, io', fd, Nothing, err, rdhup)
            && Sound(io', now, false) && TokensHeld(io', flying)
  {
    EventWithoutRead(io, fd, false, false, err, rdhup, WroteAll, true, now, flying, false);
    HangupEffect(io, fd, err, rdhup, now);
  }

  /** Every event leaves the invariants in place, hands over at most the pending
      request of its own connection, and never reads a moved-from parser. */
  lemma EventMeaning(io: Io, fd: int, readable: bool, writable: bool, err: bool, rdhup: bool,
                     result: ReadOutcome, outcome: WriteOutcome, rearmed: bool, now: nat, flying: multiset<Job>)
    requires Sound(io, now, false) && TokensHeld(io, flying) && Deliverable(io, fd, readable, writable, err, rdhup)
    ensures var (io', action) := Handled(io, fd, readable, writable, err, rdhup, result, outcome, rearmed, now);
            && fd in io.connections && EventEffect(io, io', fd, action, err, rdhup)
            && Sound(io', now, false) && TokensHeld(io', flying + HandedOver(action))
  {
    assert flying + HandedOver(Nothing) == flying;
    if readable {
      ReadEventMeaning(io, fd, err, rdhup, result, now, flying);
    } else if writable {
      WriteEventMeaning(io, fd, err, rdhup, outcome, rearmed, now, flying);
    } else {
      HangupMeaning(io, fd, err, rdhup, now, flying);
    }
  }

  // ----------------------------------------------------------------- the scan

  /** The connections that an exact scan leaves. */
  ghost predicate ClosedExactlyExpired(conns: map<int, Connection>, conns': map<int, Connection>, now: nat) {
    forall fd :: fd in conns ==> (fd !in conns' <==> Expired(conns, fd, now))
  }

  lemma ScanOutcome(io: Io, now: nat, flying: multiset<Job>)
    requires Sound(io, now, false) && TokensHeld(io, flying)
    ensures var io' := CheckTimeouts(io, now);
            && Sound(io', now, false) && TokensHeld(io', flying)
            && (forall fd :: fd in io'.connections ==>
                  fd in io.connections && io'.connections[fd] == io.connections[fd])
            && (ClosedExactlyExpired(io.connections, io'.connections, now) <==> !Obstructed(io, now))
  {
    CheckTimeoutsMeaning(io, now);
    CheckTimeoutsSound(io, now, false);
    ShrinkTokens(io, CheckTimeouts(io, now), Closed(io.connections, io.timeouts, now), flying);
    ExactUnlessObstructed(io, now);
  }

  // ---------------------------------------------------------- a drained batch

  function DeliverEach(io: Io, batch: seq<Job>, kernel: seq<Flushed>, now: nat): Io
    requires |kernel| == |batch|
    decreases |batch|
  {
    if batch == [] then io
    else DeliverEach(Deliver(io, batch[0], kernel[0].outcome, kernel[0].rearmed, now), batch[1..], kernel[1..], now)
  }

  /** Some connection has this id. */
  ghost predicate Live(conns: map<int, Connection>, conn: nat) {
    exists fd :: fd in conns && conns[fd].id == conn
  }

  /** The writes a batch causes: one for each response whose connection lives, in order. */
  ghost function Answered(conns: map<int, Connection>, batch: seq<Job>, kernel: seq<Flushed>): seq<Sent>
    requires |kernel| == |batch|
    decreases |batch|
  {
    if batch == [] then []
    else
      (if Live(conns, batch[0].conn) then [Sent(batch[0].conn, batch[0], kernel[0].outcome == WroteAll)] else [])
      + Answered(conns, batch[1..], kernel[1..])
  }

  lemma {:induction false} AnsweredSame(conns: map<int, Connection>, conns': map<int, Connection>,
                                        batch: seq<Job>, kernel: seq<Flushed>)
    requires |kernel| == |batch|
    requires forall j :: j in batch ==> (Live(conns, j.conn) <==> Live(conns', j.conn))
    ensures Answered(conns, batch, kernel) == Answered(conns', batch, kernel)
    decreases |batch|
  {
    if batch != [] {
      assert batch[0] in batch;
      AnsweredSame(conns, conns', batch[1..], kernel[1..]);
    }
  }

  /** Delivering one response writes it if its connection lives and changes the
      liveness of no other connection. */
  lemma DeliverOne(io: Io, item: Job, outcome: WriteOutcome, rearmed: bool, now: nat, flying: multiset<Job>)
    requires TokensHeld(io, flying) && item in flying
    ensures var io' := Deliver(io, item, outcome, rearmed, now);
            && io'.log == io.log
               + (if Live(io.connections, item.conn) then [Sent(item.conn, item, outcome == WroteAll)] else [])
            && (forall conn :: conn != item.conn || !Live(io.connections, item.conn) ==>
                  (Live(io.connections, conn) <==> Live(io'.connections, conn)))
  {
    if Live(io.connections, item.conn) {
      var fd :| fd in io.connections && io.connections[fd].id == item.conn;
      FlyingMeetsConnection(io, item, flying, fd);
      var c := io.connections[fd].(isProcessing := false, response := Some(item));
      var io1 := io.(connections := io.connections[fd := c]);
      DoWriteRecords(io1, fd, outcome, rearmed, now);
      forall conn | conn != item.conn
        ensures Live(io.connections, conn) <==> Live(DoWrite(io1, fd, outcome, rearmed, now).connections, conn)
      {
        OthersLive(io, io1, fd, outcome, rearmed, now, conn);
      }
    }
  }

  lemma OthersLive(io: Io, io1: Io, fd: int, outcome: WriteOutcome, rearmed: bool, now: nat, conn: nat)
    requires fd in io.connections && io1.connections.Keys == io.connections.Keys && io.connections[fd].id != conn
    requires io1.connections[fd].id == io.connections[fd].id
    requires forall g :: g in io.connections && g != fd ==> io1.connections[g] == io.connections[g]
    ensures Live(io.connections, conn) <==> Live(DoWrite(io1, fd, outcome, rearmed, now).connections, conn)
  {
    var io' := DoWrite(io1, fd, outcome, rearmed, now);
    DoWriteKeepsId(io1, fd, outcome, rearmed, now);
    if Live(io.connections, conn) {
      var g :| g in io.connections && io.connections[g].id == conn;
      DoWriteElsewhere(io1, fd, outcome, rearmed, now, g);
      assert g in io'.connections && io'.connections[g].id == conn;
    }
    if Live(io'.connections, conn) {
      var g :| g in io'.connections && io'.connections[g].id == conn;
      if g != fd { DoWriteElsewhere(io1, fd, outcome, rearmed, now, g); }
      assert g in io.connections && io.connections[g].id == conn;
    }
  }

  lemma DoWriteKeepsId(io: Io, fd: int, outcome: WriteOutcome, rearmed: bool, now: nat)
    requires fd in io.connections
    ensures var io' := DoWrite(io, fd, outcome, rearmed, now);
            fd in io'.connections ==> io'.connections[fd].id == io.connections[fd].id
  {
  }

  /** A live connection has one response in flight, so a batch holds no second one. */
  lemma OnlyOneOf(io: Io, item: Job, rest: seq<Job>, flying: multiset<Job>)
    requires TokensHeld(io, flying) && multiset([item] + rest) <= flying && Live(io.connections, item.conn)
    ensures forall j :: j in rest ==> j.conn != item.conn
  {
    var fd :| fd in io.connections && io.connections[fd].id == item.conn;
    assert multiset([item] + rest) == multiset{item} + multiset(rest);
    assert item in multiset([item] + rest);
    FlyingMeetsConnection(io, item, flying, fd);
    NoSecondCopy(item, rest, flying);
    forall j | j in rest ensures j.conn != item.conn {
      assert j in multiset(rest) && j in flying && j != item;
    }
  }

  lemma NoSecondCopy(item: Job, rest: seq<Job>, flying: multiset<Job>)
    requires flying[item] == 1 && multiset{item} + multiset(rest) <= flying
    ensures item !in rest
  {
    assert (multiset{item} + multiset(rest))[item] == 1 + multiset(rest)[item];
    assert multiset(rest)[item] == 0;
  }

  lemma DeliverKeeps(io: Io, item: Job, outcome: WriteOutcome, rearmed: bool, now: nat, flying: multiset<Job>)
    requires Sound(io, now, false) && TokensHeld(io, flying) && item in flying
    ensures var io' := Deliver(io, item, outcome, rearmed, now);
            Sound(io', now, false) && TokensHeld(io', flying - multiset{item})
  {
    DeliverTokens(io, item, outcome, rearmed, now, flying);
    DeliverSound(io, item, outcome, rearmed, now, false);
  }

  lemma {:induction false} BatchKeeps(io: Io, batch: seq<Job>, kernel: seq<Flushed>, now: nat, flying: multiset<Job>)
    requires Sound(io, now, false) && TokensHeld(io, flying) && multiset(batch) <= flying && |kernel| == |batch|
    ensures var io' := DeliverEach(io, batch, kernel, now);
            Sound(io', now, false) && TokensHeld(io', flying - multiset(batch))
    decreases |batch|
  {
    if batch == [] {
      assert flying - multiset(batch) == flying;
    } else {
      TakeFirst(batch, flying);
      DeliverKeeps(io, batch[0], kernel[0].outcome, kernel[0].rearmed, now, flying);
      BatchKeeps(Deliver(io, batch[0], kernel[0].outcome, kernel[0].rearmed, now), batch[1..], kernel[1..], now,
                 flying - multiset{batch[0]});
    }
  }

  lemma SentAssoc(a: seq<Sent>, b: seq<Sent>, c: seq<Sent>)
    ensures (a + b) + c == a + (b + c)
  {
  }

  lemma {:induction false} BatchLog(io: Io, batch: seq<Job>, kernel: seq<Flushed>, now: nat, flying: multiset<Job>)
    requires Sound(io, now, false) && TokensHeld(io, flying) && multiset(batch) <= flying && |kernel| == |batch|
    ensures DeliverEach(io, batch, kernel, now).log == io.log + Answered(io.connections, batch, kernel)
    decreases |batch|
  {
    if batch == [] {
      assert io.log + [] == io.log;
    } else {
      var item, rest := batch[0], batch[1..];
      var io1 := Deliver(io, item, kernel[0].outcome, kernel[0].rearmed, now);
      var first := if Live(io.connections, item.conn) then [Sent(item.conn, item, kernel[0].outcome == WroteAll)]
                   else [];
      TakeFirst(batch, flying);
      DeliverKeeps(io, item, kernel[0].outcome, kernel[0].rearmed, now, flying);
      DeliverOne(io, item, kernel[0].outcome, kernel[0].rearmed, now, flying);
      BatchLog(io1, rest, kernel[1..], now, flying - multiset{item});
      assert [item] + rest == batch;
      RestAnswered(io, io1, item, rest, kernel[1..], flying);
      SentAssoc(io.log, first, Answered(io.connections, rest, kernel[1..]));
    }
  }

  /** The loop over a drained batch: every response whose connection lives is
      written to it, in order, the others are dropped, and the tokens are consumed. */
  lemma BatchMeaning(io: Io, batch: seq<Job>, kernel: seq<Flushed>, now: nat, flying: multiset<Job>)
    requires Sound(io, now, false) && TokensHeld(io, flying) && multiset(batch) <= flying && |kernel| == |batch|
    ensures var io' := DeliverEach(io, batch, kernel, now);
            && Sound(io', now, false) && TokensHeld(io', flying - multiset(batch))
            && io'.log == io.log + Answered(io.connections, batch, kernel)
  {
    BatchKeeps(io, batch, kernel, now, flying);
    BatchLog(io, batch, kernel, now, flying);
  }

  lemma TakeFirst(batch: seq<Job>, flying: multiset<Job>)
    requires batch != [] && multiset(batch) <= flying
    ensures batch[0] in flying && multiset(batch[1..]) <= flying - multiset{batch[0]}
    ensures flying - multiset{batch[0]} - multiset(batch[1..]) == flying - multiset(batch)
  {
    assert batch == [batch[0]] + batch[1..];
    assert multiset(batch) == multiset{batch[0]} + multiset(batch[1..]);
  }

  lemma RestAnswered(io: Io, io1: Io, item: Job, rest: seq<Job>, kernel: seq<Flushed>, flying: multiset<Job>)
    requires TokensHeld(io, flying) && multiset([item] + rest) <= flying && |kernel| == |rest|
    requires forall conn :: conn != item.conn || !Live(io.connections, item.conn) ==>
               (Live(io.connections, conn) <==> Live(io1.connections, conn))
    ensures Answered(io1.connections, rest, kernel) == Answered(io.connections, rest, kernel)
  {
    if Live(io.connections, item.conn) { OnlyOneOf(io, item, rest, flying); }
    AnsweredSame(io.connections, io1.connections, rest, kernel);
  }

  function HandleSteps(kernel: seq<Flushed>): seq<Step> {
    if kernel == [] then [] else [HandleItem(kernel[0].outcome, kernel[0].rearmed)] + HandleSteps(kernel[1..])
  }

  /** The loop is a run of the protocol's steps. */
  lemma {:induction false} BatchIsRun(s: State, kernel: seq<Flushed>)
    requires s.pc.Batch? && |kernel| == |s.pc.items|
    ensures Possible(s, HandleSteps(kernel))
    ensures After(s, HandleSteps(kernel))
            == s.(io := DeliverEach(s.io, s.pc.items, kernel, s.now), pc := Batch([], s.pc.stopping))
    decreases |kernel|
  {
    if kernel != [] {
      var step := HandleItem(kernel[0].outcome, kernel[0].rearmed);
      BatchIsRun(Next(s, step), kernel[1..]);
      Prepend(s, step, HandleSteps(kernel[1..]));
    }
  }

  // ---------------------------------------------------------- the accept loop

  function AcceptEach(io: Io, pending: seq<Accepted>, now: nat): Io
    decreases |pending|
  {
    if pending == [] then io
    else AcceptEach(Accept(io, pending[0].fd, pending[0].registered, now), pending[1..], now)
  }

  /** The kernel never hands out a descriptor that is open. */
  predicate FreshFds(open: set<int>, pending: seq<Accepted>)
    decreases |pending|
  {
    pending == []
    || (pending[0].fd !in open
        && FreshFds(if pending[0].registered then open + {pending[0].fd} else open, pending[1..]))
  }

  function Registered(pending: seq<Accepted>): set<int> {
    set a | a in pending && a.registered :: a.fd
  }

  function NewNodes(pending: seq<Accepted>, from: nat): seq<Node>
    decreases |pending|
  {
    if pending == [] then [] else [Node(from, pending[0].fd)] + NewNodes(pending[1..], from + 1)
  }

  /** A connection nothing has happened on yet. */
  function Newcomer(id: nat, node: nat, now: nat): Connection {
    Connection(id, node, now, false, false, None, false, 0)
  }

  /** Ids and nodes are handed out in order, used up by failures too. */
  ghost predicate IdsInOrder(conns: map<int, Connection>, pending: seq<Accepted>, id: nat, node: nat, now: nat) {
    forall i :: 0 <= i < |pending| && pending[i].registered ==>
      pending[i].fd in conns && conns[pending[i].fd] == Newcomer(id + i, node + i, now)
  }

  lemma {:induction false} AcceptEachKeeps(io: Io, pending: seq<Accepted>, now: nat, flying: multiset<Job>)
    requires Sound(io, now, false) && TokensHeld(io, flying) && FreshFds(io.open, pending)
    ensures Sound(AcceptEach(io, pending, now), now, false) && TokensHeld(AcceptEach(io, pending, now), flying)
    decreases |pending|
  {
    if pending != [] {
      var a := pending[0];
      AcceptSound(io, a.fd, a.registered, now, false);
      AcceptTokens(io, a.fd, a.registered, now, flying);
      AcceptEachKeeps(Accept(io, a.fd, a.registered, now), pending[1..], now, flying);
    }
  }

  lemma NodesStep(pending: seq<Accepted>, from: nat, list: seq<Node>, list1: seq<Node>, list2: seq<Node>)
    requires pending != [] && list1 == list + [Node(from, pending[0].fd)]
    requires list2 == list1 + NewNodes(pending[1..], from + 1)
    ensures list2 == list + NewNodes(pending, from)
  {
  }

  lemma KeysStep(pending: seq<Accepted>, keys: set<int>, keys1: set<int>, keys2: set<int>)
    requires pending != [] && keys1 == keys + (if pending[0].registered then {pending[0].fd} else {})
    requires keys2 == keys1 + Registered(pending[1..])
    ensures keys2 == keys + Registered(pending)
  {
    RegisteredStep(pending);
  }

  /** One accepted descriptor takes one id and one list node; the others keep their connections. */
  lemma AcceptOneGives(io: Io, a: Accepted, now: nat)
    requires Structure(io, now) && a.fd !in io.open
    ensures var io' := Accept(io, a.fd, a.registered, now);
            && Structure(io', now)
            && io'.open == (if a.registered then io.open + {a.fd} else io.open)
            && io'.nextId == io.nextId + 1 && io'.nextNode == io.nextNode + 1
            && io'.timeouts == io.timeouts + [Node(io.nextNode, a.fd)]
            && (forall g :: g in io.connections ==> g in io'.connections && io'.connections[g] == io.connections[g])
            && io'.connections.Keys == io.connections.Keys + (if a.registered then {a.fd} else {})
            && (a.registered ==> io'.connections[a.fd] == Newcomer(io.nextId + 1, io.nextNode, now))
  {
    AcceptKeepsStructure(io, a.fd, a.registered, now);
  }

  lemma {:induction false} AcceptEachCounts(io: Io, pending: seq<Accepted>, now: nat)
    requires Structure(io, now) && FreshFds(io.open, pending)
    ensures AcceptEach(io, pending, now).nextId == io.nextId + |pending|
    decreases |pending|
  {
    if pending != [] {
      var a := pending[0];
      AcceptOneGives(io, a, now);
      AcceptEachCounts(Accept(io, a.fd, a.registered, now), pending[1..], now);
    }
  }

  lemma {:induction false} AcceptEachLists(io: Io, pending: seq<Accepted>, now: nat)
    requires Structure(io, now) && FreshFds(io.open, pending)
    ensures AcceptEach(io, pending, now).timeouts == io.timeouts + NewNodes(pending, io.nextNode)
    decreases |pending|
  {
    if pending == [] {
      assert io.timeouts + [] == io.timeouts;
    } else {
      var a := pending[0];
      AcceptOneGives(io, a, now);
      var io1 := Accept(io, a.fd, a.registered, now);
      AcceptEachLists(io1, pending[1..], now);
      NodesStep(pending, io.nextNode, io.timeouts, io1.timeouts, AcceptEach(io1, pending[1..], now).timeouts);
    }
  }

  lemma {:induction false} AcceptEachSpares(io: Io, pending: seq<Accepted>, now: nat)
    requires Structure(io, now) && FreshFds(io.open, pending)
    ensures var io' := AcceptEach(io, pending, now);
            forall g :: g in io.connections ==> g in io'.connections && io'.connections[g] == io.connections[g]
    decreases |pending|
  {
    if pending != [] {
      var a := pending[0];
      AcceptOneGives(io, a, now);
      AcceptEachSpares(Accept(io, a.fd, a.registered, now), pending[1..], now);
    }
  }

  lemma {:induction false} AcceptEachKeys(io: Io, pending: seq<Accepted>, now: nat)
    requires Structure(io, now) && FreshFds(io.open, pending)
    ensures AcceptEach(io, pending, now).connections.Keys == io.connections.Keys + Registered(pending)
    decreases |pending|
  {
    if pending == [] {
      assert Registered(pending) == {};
    } else {
      var a := pending[0];
      AcceptOneGives(io, a, now);
      var io1 := Accept(io, a.fd, a.registered, now);
      AcceptEachKeys(io1, pending[1..], now);
      KeysStep(pending, io.connections.Keys, io1.connections.Keys, AcceptEach(io1, pending[1..], now).connections.Keys);
    }
  }

  lemma {:induction false} AcceptEachOrders(io: Io, pending: seq<Accepted>, now: nat)
    requires Structure(io, now) && FreshFds(io.open, pending)
    ensures IdsInOrder(AcceptEach(io, pending, now).connections, pending, io.nextId + 1, io.nextNode, now)
    decreases |pending|
  {
    if pending != [] {
      var a, rest := pending[0], pending[1..];
      var io1 := Accept(io, a.fd, a.registered, now);
      AcceptOneGives(io, a, now);
      AcceptEachSpares(io1, rest, now);
      AcceptEachOrders(io1, rest, now);
      ShiftIds(AcceptEach(io, pending, now).connections, pending, io.nextId + 1, io.nextNode, now);
    }
  }

  lemma ShiftIds(conns: map<int, Connection>, pending: seq<Accepted>, id: nat, node: nat, now: nat)
    requires pending != [] && IdsInOrder(conns, pending[1..], id + 1, node + 1, now)
    requires pending[0].registered ==> pending[0].fd in conns && conns[pending[0].fd] == Newcomer(id, node, now)
    ensures IdsInOrder(conns, pending, id, node, now)
  {
    forall i | 0 <= i < |pending| && pending[i].registered
      ensures pending[i].fd in conns && conns[pending[i].fd] == Newcomer(id + i, node + i, now)
    {
      if i > 0 { assert pending[1..][i - 1] == pending[i]; }
    }
  }

  lemma RegisteredStep(pending: seq<Accepted>)
    requires pending != []
    ensures Registered(pending)
            == (if pending[0].registered then {pending[0].fd} else {}) + Registered(pending[1..])
  {
    assert forall a :: a in pending <==> a == pending[0] || a in pending[1..];
  }

  /** What the accept loop leaves: descriptors, ids and list nodes are new and in
      order, every older connection is as it was, and all invariants hold. */
  ghost predicate AllAccepted(io: Io, io': Io, pending: seq<Accepted>, now: nat) {
    && io'.nextId == io.nextId + |pending|
    && io'.timeouts == io.timeouts + NewNodes(pending, io.nextNode)
    && io'.connections.Keys == io.connections.Keys + Registered(pending)
    && (forall g :: g in io.connections ==> g in io'.connections && io'.connections[g] == io.connections[g])
    && IdsInOrder(io'.connections, pending, io.nextId + 1, io.nextNode, now)
  }

  lemma AcceptsMeaning(io: Io, pending: seq<Accepted>, now: nat, flying: multiset<Job>)
    requires Sound(io, now, false) && TokensHeld(io, flying) && FreshFds(io.open, pending)
    ensures var io' := AcceptEach(io, pending, now);
            Sound(io', now, false) && TokensHeld(io', flying) && AllAccepted(io, io', pending, now)
  {
    AcceptEachKeeps(io, pending, now, flying);
    AcceptEachCounts(io, pending, now);
    AcceptEachLists(io, pending, now);
    AcceptEachKeys(io, pending, now);
    AcceptEachSpares(io, pending, now);
    AcceptEachOrders(io, pending, now);
  }

  function AcceptSteps(pending: seq<Accepted>): seq<Step> {
    if pending == [] then [] else [AcceptOne(pending[0].fd, pending[0].registered)] + AcceptSteps(pending[1..])
  }

  /** The accept loop is a run of the protocol's steps. */
  lemma {:induction false} AcceptsAreRun(s: State, pending: seq<Accepted>)
    requires s.pc == Accepting && FreshFds(s.io.open, pending)
    ensures Possible(s, AcceptSteps(pending))
    ensures After(s, AcceptSteps(pending)) == s.(io := AcceptEach(s.io, pending, s.now))
    decreases |pending|
  {
    if pending != [] {
      var step := AcceptOne(pending[0].fd, pending[0].registered);
      AcceptsAreRun(Next(s, step), pending[1..]);
      Prepend(s, step, AcceptSteps(pending[1..]));
    }
  }
}
