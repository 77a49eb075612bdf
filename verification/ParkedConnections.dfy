/** Connections that a bare EPOLLRDHUP has left without an armed event: how they
    arise, and that nothing but the timeout scan touches them again. */
module ParkedConnections {

  import opened Common
  import opened Reactor
  import opened TimeoutScan
  import opened Tokens
  import opened Protocol
  import opened ProtocolTokens
  import opened ProtocolTheorems

  /** Connection and epoll mask of `fd` are as before. */
  predicate Untouched(io: Io, io': Io, fd: int) {
    && fd in io.connections && fd in io'.connections && io'.connections[fd] == io.connections[fd]
    && fd in io.armed && fd in io'.armed && io'.armed[fd] == io.armed[fd]
  }

  lemma OnReadElsewhere(io: Io, g: int, outcome: ReadOutcome, now: nat, fd: int)
    requires fd != g && fd in io.connections && fd in io.armed
    ensures Untouched(io, OnRead(io, g, outcome, now).0, fd)
  {
  }

  lemma FinishElsewhere(io: Io, g: int, err: bool, rdhup: bool, fd: int)
    requires fd != g && fd in io.connections && fd in io.armed
    ensures Untouched(io, FinishEvent(io, g, err, rdhup), fd)
  {
  }

  lemma WriteElsewhere(io: Io, g: int, readable: bool, writable: bool, err: bool, rdhup: bool,
                       outcome: WriteOutcome, rearmed: bool, now: nat, fd: int)
    requires fd != g && fd in io.connections && fd in io.armed
    ensures Untouched(io, HandleStopEvent(io, g, readable, writable, err, rdhup, outcome, rearmed, now), fd)
  {
    if writable && g in io.connections { DoWriteElsewhere(io, g, outcome, rearmed, now, fd); }
    var io1 := if writable then OnWrite(io, g, outcome, rearmed, now) else io;
    FinishElsewhere(io1, g, err || readable, rdhup, fd);
  }

  lemma EventElsewhere(s: State, step: Step, fd: int)
    requires Enabled(s, step) && (step.WriteEvent? || step.StopEvent?)
    requires fd != step.fd && fd in s.io.connections && fd in s.io.armed
    ensures Untouched(s.io, Next(s, step).io, fd)
  {
    var readable := step.StopEvent? && step.readable;
    var io1 := Disarm(s.io, step.fd, !readable && !step.writable && !step.err);
    assert Untouched(s.io, io1, fd);
    WriteElsewhere(io1, step.fd, readable, step.writable, step.err, step.rdhup, step.outcome, step.rearmed, s.now, fd);
  }

  lemma AfterReadElsewhere(s: State, io: Io, action: Action, tail: Tail, fd: int)
    requires fd != tail.fd && fd in io.connections && fd in io.armed
    ensures Untouched(io, AfterRead(s, io, action, tail).io, fd)
  {
    FinishElsewhere(io, tail.fd, tail.err, tail.rdhup, fd);
  }

  lemma ReadElsewhere(s: State, step: Step, fd: int)
    requires Enabled(s, step) && step.ReadEvent?
    requires fd != step.fd && fd in s.io.connections && fd in s.io.armed
    ensures Untouched(s.io, Next(s, step).io, fd)
  {
    var io1 := Disarm(s.io, step.fd, !step.readable && !step.err);
    assert Untouched(s.io, io1, fd);
    OnReadElsewhere(io1, step.fd, step.result, s.now, fd);
    var (io2, action) := if step.readable then OnRead(io1, step.fd, step.result, s.now) else (io1, Nothing);
    AfterReadElsewhere(s, io2, action, Tail(step.fd, step.err, step.rdhup), fd);
  }

  lemma DeliverElsewhere(io: Io, item: Job, outcome: WriteOutcome, rearmed: bool, now: nat, fd: int)
    requires fd in io.connections && fd in io.armed
    requires item.fd in io.connections && io.connections[item.fd].id == item.conn ==> item.fd != fd
    ensures Untouched(io, Deliver(io, item, outcome, rearmed, now), fd)
  {
    if item.fd in io.connections && io.connections[item.fd].id == item.conn {
      var c := io.connections[item.fd].(isProcessing := false, response := Some(item));
      DoWriteElsewhere(io.(connections := io.connections[item.fd := c]), item.fd, outcome, rearmed, now, fd);
    }
  }

  lemma DeliveryElsewhere(s: State, step: Step, fd: int)
    requires IoInv(s, false) && Enabled(s, step) && step.HandleItem?
    requires fd in s.io.connections && s.io.connections[fd].id in s.io.parked && fd in s.io.armed
    ensures Untouched(s.io, Next(s, step).io, fd)
  {
    FlyingHandle(s, step);
    var item := s.pc.items[0];
    if item.fd == fd && s.io.connections[fd].id == item.conn {
      FlyingMeetsConnection(s.io, item, Flying(s), fd);
    }
    DeliverElsewhere(s.io, item, step.outcome, step.rearmed, s.now, fd);
  }

  lemma TailElsewhere(s: State, step: Step, fd: int)
    requires TailInv(s) && Enabled(s, step) && (step.SignalResponse? || step.EnqueueTask?)
    requires fd in s.io.connections && s.io.connections[fd].id in s.io.parked && fd in s.io.armed
    ensures Untouched(s.io, Next(s, step).io, fd)
  {
    assert s.pc.tail.fd != fd;
  }

  lemma IoLeft(s: State, step: Step)
    requires Enabled(s, step) && LeavesIo(step)
    ensures Next(s, step).io == s.io
  {
  }

  lemma ScanReclaims(io: Io, fd: int, now: nat)
    requires fd in io.connections && fd in io.armed
    ensures Untouched(io, CheckTimeouts(io, now), fd) || Expired(io.connections, fd, now)
  {
    CheckTimeoutsMeaning(io, now);
    ClosedMeaning(io.connections, io.timeouts, fd, now);
  }

  lemma AcceptElsewhere(s: State, step: Step, fd: int)
    requires Enabled(s, step) && step.AcceptOne? && fd in s.io.connections && fd in s.io.armed && fd in s.io.open
    ensures Untouched(s.io, Next(s, step).io, fd)
  {
  }

  lemma ParkedFdIsDisarmed(s: State, fd: int)
    requires IoInv(s, false) && fd in s.io.connections && s.io.connections[fd].id in s.io.parked
    ensures fd in s.io.armed && s.io.armed[fd] == Disarmed && fd in s.io.open
  {
    assert TokenOk(s.io, fd, Flying(s));
  }

  lemma ParkedStep(s: State, step: Step, fd: int)
    requires TailInv(s) && IoInv(s, false) && Enabled(s, step) && !step.TimerTick?
    requires fd in s.io.connections && s.io.connections[fd].id in s.io.parked
    ensures Untouched(s.io, Next(s, step).io, fd)
  {
    ParkedFdIsDisarmed(s, fd);
    if step.ReadEvent? { ReadElsewhere(s, step, fd); }
    else if step.WriteEvent? || step.StopEvent? { EventElsewhere(s, step, fd); }
    else if step.HandleItem? { DeliveryElsewhere(s, step, fd); }
    else if step.SignalResponse? || step.EnqueueTask? { TailElsewhere(s, step, fd); }
    else if step.AcceptOne? { AcceptElsewhere(s, step, fd); }
    else { IoLeft(s, step); }
  }

  /** A parked connection stays as it is until the timeout scan reclaims it. */
  lemma OnlyTheScanReclaimsParked(s: State, capacity: nat, workers: nat, start: nat, steps: seq<Step>,
                                  step: Step, fd: int)
    requires ReachedBy(s, capacity, workers, start, steps) && Enabled(s, step)
    requires fd in s.io.connections && s.io.connections[fd].id in s.io.parked
    ensures Untouched(s.io, Next(s, step).io, fd) || (step == TimerTick && Expired(s.io.connections, fd, s.now))
  {
    ReachedInv(s, capacity, workers, start, steps);
    if step.TimerTick? {
      ParkedFdIsDisarmed(s, fd);
      ScanReclaims(s.io, fd, s.now);
    } else {
      ParkedStep(s, step, fd);
    }
  }

  lemma OnReadParks(io: Io, fd: int, outcome: ReadOutcome, now: nat)
    ensures OnRead(io, fd, outcome, now).0.parked == io.parked
  {
  }

  lemma DoWriteParks(io: Io, fd: int, outcome: WriteOutcome, rearmed: bool, now: nat)
    requires fd in io.connections
    ensures DoWrite(io, fd, outcome, rearmed, now).parked == io.parked
  {
  }

  lemma FinishParks(io: Io, fd: int, err: bool, rdhup: bool)
    ensures FinishEvent(io, fd, err, rdhup).parked == io.parked
  {
  }

  lemma StopEventParks(io: Io, g: int, readable: bool, writable: bool, err: bool, rdhup: bool,
                       outcome: WriteOutcome, rearmed: bool, now: nat)
    ensures HandleStopEvent(io, g, readable, writable, err, rdhup, outcome, rearmed, now).parked == io.parked
  {
    if writable && g in io.connections { DoWriteParks(io, g, outcome, rearmed, now); }
    FinishParks(if writable then OnWrite(io, g, outcome, rearmed, now) else io, g, err || readable, rdhup);
  }

  lemma DeliverParks(io: Io, item: Job, outcome: WriteOutcome, rearmed: bool, now: nat)
    ensures Deliver(io, item, outcome, rearmed, now).parked == io.parked
  {
  }

  lemma ReadParks(s: State, step: Step)
    requires Enabled(s, step) && step.ReadEvent?
    ensures step.readable || step.err ==> Next(s, step).io.parked == s.io.parked
  {
    var ReadEvent(fd, readable, err, rdhup, result) := step;
    var io1 := Disarm(s.io, fd, !readable && !err);
    OnReadParks(io1, fd, result, s.now);
    var io2 := if readable then OnRead(io1, fd, result, s.now).0 else io1;
    FinishParks(io2, fd, err, rdhup);
  }

  lemma WriteParks(s: State, step: Step)
    requires Enabled(s, step) && (step.WriteEvent? || step.StopEvent?)
    ensures step.writable || step.err || (step.StopEvent? && step.readable) ==> Next(s, step).io.parked == s.io.parked
  {
    var readable := step.StopEvent? && step.readable;
    StopEventParks(Disarm(s.io, step.fd, !readable && !step.writable && !step.err), step.fd, readable, step.writable,
                   step.err, step.rdhup, step.outcome, step.rearmed, s.now);
  }

  lemma OthersPark(s: State, step: Step)
    requires Enabled(s, step) && !step.ReadEvent? && !step.WriteEvent? && !step.StopEvent?
    ensures Next(s, step).io.parked == s.io.parked
  {
    if step.TimerTick? { CheckTimeoutsMeaning(s.io, s.now); }
    else if step.HandleItem? { DeliverParks(s.io, s.pc.items[0], step.outcome, step.rearmed, s.now); }
    else if !step.AcceptOne? && !step.SignalResponse? && !step.EnqueueTask? { IoLeft(s, step); }
  }

  /** Only an event that is nothing but EPOLLRDHUP parks a connection. */
  lemma OnlyBareRdhupParks(s: State, step: Step, id: nat)
    requires Enabled(s, step) && id !in s.io.parked && id in Next(s, step).io.parked
    ensures step.ReadEvent? || step.WriteEvent? || step.StopEvent?
    ensures step.rdhup && !step.err
    ensures step.ReadEvent? || step.StopEvent? ==> !step.readable
    ensures step.WriteEvent? || step.StopEvent? ==> !step.writable
  {
    if step.ReadEvent? { ReadParks(s, step); }
    else if step.WriteEvent? || step.StopEvent? { WriteParks(s, step); }
    else { OthersPark(s, step); }
  }

  // --------------------------------------------------- without the history map

  lemma ReachedThen(s: State, capacity: nat, workers: nat, start: nat, steps: seq<Step>, step: Step)
    requires ReachedBy(s, capacity, workers, start, steps) && Enabled(s, step)
    ensures ReachedBy(Next(s, step), capacity, workers, start, steps + [step])
  {
    assert [step][1..] == [];
    assert Possible(Next(s, step), []) && After(Next(s, step), []) == Next(s, step);
    assert Possible(s, [step]) && After(s, [step]) == Next(s, step);
    Join(Start(capacity, workers, start), steps, [step]);
  }

  /** Only the descriptor of the event is parked. */
  lemma ParksItsOwn(s: State, step: Step, id: nat)
    requires Enabled(s, step) && (step.ReadEvent? || step.WriteEvent? || step.StopEvent?)
    requires id !in s.io.parked && id in Next(s, step).io.parked
    ensures step.fd in s.io.connections && s.io.connections[step.fd].id == id
  {
    OnlyBareRdhupParks(s, step, id);
    var fd := step.fd;
    if step.ReadEvent? { FinishParks(Disarm(s.io, fd, true), fd, step.err, step.rdhup); }
    else {
      StopEventParks(Disarm(s.io, fd, true), fd, false, false, step.err, step.rdhup, step.outcome, step.rearmed, s.now);
    }
  }

  /** A step after which a live connection has lost its only claim on the next move
      is an event of its descriptor that is EPOLLRDHUP and nothing else. */
  lemma OnlyBareRdhupTakesTheClaim(s: State, capacity: nat, workers: nat, start: nat, steps: seq<Step>,
                                   step: Step, fd: int)
    requires ReachedBy(s, capacity, workers, start, steps) && Enabled(s, step)
    requires fd in s.io.connections && fd in s.io.armed && Claims(s, fd) == 1
    requires var s' := Next(s, step);
             && fd in s'.io.connections && fd in s'.io.armed && s'.io.connections[fd].id == s.io.connections[fd].id
             && Claims(s', fd) == 0
    ensures (step.ReadEvent? || step.WriteEvent? || step.StopEvent?) && step.fd == fd
    ensures step.rdhup && !step.err
    ensures step.ReadEvent? || step.StopEvent? ==> !step.readable
    ensures step.WriteEvent? || step.StopEvent? ==> !step.writable
  {
    var s', id := Next(s, step), s.io.connections[fd].id;
    ReachedThen(s, capacity, workers, start, steps, step);
    OneTokenPerConnection(s, capacity, workers, start, steps, fd);
    OneTokenPerConnection(s', capacity, workers, start, steps + [step], fd);
    OnlyBareRdhupParks(s, step, id);
    ParksItsOwn(s, step, id);
    ReachedInv(s, capacity, workers, start, steps);
  }
}
