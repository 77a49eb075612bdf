/** Every handler of the I/O thread keeps the connection map, the timeout list,
    the epoll set and the gauge consistent. */
module ReactorSound {

  import opened Common
  import opened Reactor
  import opened TimeoutScan

  /** The structural invariant, and, in a `clean` history without failed
      registrations, no left-over list nodes. */
  ghost predicate Sound(io: Io, now: nat, clean: bool) {
    Structure(io, now) && (clean ==> NoStaleNodes(io))
  }

  lemma UpdateSound(io: Io, fd: int, d: Connection, now: nat, clean: bool)
    requires Sound(io, now, clean) && fd in io.connections && SameSkeleton(io.connections[fd], d)
    ensures Sound(io.(connections := io.connections[fd := d]), now, clean)
  {
    UpdateKeepsStructure(io, fd, d, now);
  }

  lemma TouchSound(io: Io, fd: int, now: nat, clean: bool)
    requires Sound(io, now, clean) && fd in io.connections
    ensures Sound(Touch(io, fd, now), now, clean)
  {
    TouchKeepsStructure(io, fd, now);
    if clean { TouchKeepsNodes(io, fd, now); }
  }

  lemma CloseSound(io: Io, fd: int, now: nat, clean: bool)
    requires Sound(io, now, clean) && fd in io.connections
    ensures Sound(Close(io, fd), now, clean)
  {
    CloseKeepsStructure(io, fd, now);
    if clean { CloseKeepsNodes(io, fd, now); }
  }

  lemma ModifyEpollSound(io: Io, fd: int, mask: Mask, succeeds: bool, now: nat, clean: bool)
    requires Sound(io, now, clean) && fd in io.connections
    ensures Sound(ModifyEpoll(io, fd, mask, succeeds), now, clean)
  {
    if succeeds {
      assert io.armed[fd := mask].Keys == io.armed.Keys;
    } else {
      CloseSound(io, fd, now, clean);
    }
  }

  lemma LogSound(io: Io, sent: Sent, now: nat, clean: bool)
    requires Sound(io, now, clean)
    ensures Sound(io.(log := io.log + [sent]), now, clean)
  {
  }

  lemma WriteStarts(io: Io, fd: int, sent: Sent, now: nat, clean: bool)
    requires Sound(io, now, clean) && fd in io.connections
    ensures var io1 := Touch(io, fd, now).(log := io.log + [sent]);
            Sound(io1, now, clean) && fd in io1.connections && io1.connections[fd].lastActivity == now
  {
    TouchSound(io, fd, now, clean);
    LogSound(Touch(io, fd, now), sent, now, clean);
  }

  /** What follows the byte loop of a write. */
  lemma WriteEnds(io: Io, fd: int, outcome: WriteOutcome, rearmed: bool, now: nat, clean: bool)
    requires Sound(io, now, clean) && fd in io.connections && io.connections[fd].lastActivity == now
    ensures match outcome
            case WouldBlock => Sound(ModifyEpoll(io, fd, ForWrite, rearmed), now, clean)
            case WriteFailed => Sound(Close(io, fd), now, clean)
            case WroteAll =>
              var io2 := io.(connections := io.connections[fd := Reset(io.connections[fd], now)]);
              && Sound(Close(io, fd), now, clean)
              && Sound(ModifyEpoll(Touch(io2, fd, now), fd, ForRead, rearmed), now, clean)
  {
    match outcome
    case WouldBlock => ModifyEpollSound(io, fd, ForWrite, rearmed, now, clean);
    case WriteFailed => CloseSound(io, fd, now, clean);
    case WroteAll =>
      CloseSound(io, fd, now, clean);
      ResetSound(io, fd, rearmed, now, clean);
  }

  lemma DoWriteSound(io: Io, fd: int, outcome: WriteOutcome, rearmed: bool, now: nat, clean: bool)
    requires Sound(io, now, clean) && fd in io.connections
    ensures Sound(DoWrite(io, fd, outcome, rearmed, now), now, clean)
  {
    var c := io.connections[fd];
    if c.response.Some? {
      var sent := Sent(c.id, c.response.value, outcome == WroteAll);
      var io1 := Touch(io, fd, now).(log := io.log + [sent]);
      WriteStarts(io, fd, sent, now, clean);
      WriteEnds(io1, fd, outcome, rearmed, now, clean);
    }
  }

  lemma ResetSound(io: Io, fd: int, rearmed: bool, now: nat, clean: bool)
    requires Sound(io, now, clean) && fd in io.connections && io.connections[fd].lastActivity == now
    ensures var io2 := io.(connections := io.connections[fd := Reset(io.connections[fd], now)]);
            Sound(ModifyEpoll(Touch(io2, fd, now), fd, ForRead, rearmed), now, clean)
  {
    var io2 := io.(connections := io.connections[fd := Reset(io.connections[fd], now)]);
    UpdateSound(io, fd, Reset(io.connections[fd], now), now, clean);
    TouchSound(io2, fd, now, clean);
    ModifyEpollSound(Touch(io2, fd, now), fd, ForRead, rearmed, now, clean);
  }

  lemma DeliverSound(io: Io, item: Job, outcome: WriteOutcome, rearmed: bool, now: nat, clean: bool)
    requires Sound(io, now, clean)
    ensures Sound(Deliver(io, item, outcome, rearmed, now), now, clean)
  {
    if item.fd in io.connections && io.connections[item.fd].id == item.conn {
      var c := io.connections[item.fd].(isProcessing := false, response := Some(item));
      UpdateSound(io, item.fd, c, now, clean);
      DoWriteSound(io.(connections := io.connections[item.fd := c]), item.fd, outcome, rearmed, now, clean);
    }
  }

  lemma OnReadSound(io: Io, fd: int, outcome: ReadOutcome, now: nat, clean: bool)
    requires Sound(io, now, clean)
    ensures Sound(OnRead(io, fd, outcome, now).0, now, clean)
  {
    if fd in io.connections && !io.connections[fd].parserMoved {
      TouchSound(io, fd, now, clean);
      var io1 := Touch(io, fd, now);
      match outcome
      case ReadClosed => CloseSound(io1, fd, now, clean);
      case ReadIncomplete(rearmed) => ModifyEpollSound(io1, fd, ForRead, rearmed, now, clean);
      case _ =>
        var io2 := OnRead(io, fd, outcome, now).0;
        UpdateSound(io1, fd, io2.connections[fd], now, clean);
        assert io2 == io1.(connections := io1.connections[fd := io2.connections[fd]]);
    }
  }

  lemma FinishEventSound(io: Io, fd: int, err: bool, rdhup: bool, now: nat, clean: bool)
    requires Sound(io, now, clean)
    ensures Sound(FinishEvent(io, fd, err, rdhup), now, clean)
  {
    if fd in io.connections {
      if err { CloseSound(io, fd, now, clean); }
      else { UpdateSound(io, fd, io.connections[fd].(closeAfterWrite := true), now, clean); }
    }
  }

  lemma DisarmSound(io: Io, fd: int, bareRdhup: bool, now: nat, clean: bool)
    requires Sound(io, now, clean) && fd in io.armed
    ensures Sound(Disarm(io, fd, bareRdhup), now, clean)
  {
    assert io.armed[fd := Disarmed].Keys == io.armed.Keys;
  }

  lemma AcceptSound(io: Io, fd: int, registered: bool, now: nat, clean: bool)
    requires Sound(io, now, clean) && fd !in io.open
    ensures Sound(Accept(io, fd, registered, now), now, clean && registered)
  {
    AcceptKeepsStructure(io, fd, registered, now);
    if clean && registered { AcceptKeepsNodes(io, fd, now); }
  }

  lemma CheckTimeoutsSound(io: Io, now: nat, clean: bool)
    requires Sound(io, now, clean)
    ensures Sound(CheckTimeouts(io, now), now, clean)
  {
    ScanKeepsStructure(io, 0, now);
    if clean { CheckTimeoutsKeepsNodes(io, now); }
  }
}
