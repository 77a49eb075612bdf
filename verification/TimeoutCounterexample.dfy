/** A failed registration can hide an idle connection from the timeout scan. */
module TimeoutCounterexample {

  import opened Common
  import opened Reactor
  import opened TimeoutScan
  import opened Protocol
  import opened ProtocolTheorems

  const LATE: nat := READ_TIMEOUT + 1

  // Descriptor 7 is accepted but cannot be registered; 8 is accepted and goes
  // idle; 7 is handed out again after the timeout has passed.
  const OPENING: seq<Step> := [SetEventFd, RegisterEventFd, TestRunning, AcceptEvent]
  const ACCEPTS: seq<Step> := [AcceptOne(7, false), AcceptOne(8, true)]
  const WAIT: seq<Step> := [EndAccept, Tick(LATE), TestRunning, AcceptEvent]
  const REUSE: seq<Step> := [AcceptOne(7, true), EndAccept, TestRunning]
  const WHOLE_RUN: seq<Step> := OPENING + (ACCEPTS + (WAIT + REUSE))

  /** Ready to accept, with nothing accepted yet. */
  function Opened(): State {
    var s := Start(0, 1, 0);
    s.(pc := Accepting, queue := s.queue.(fdSet := true))
  }

  /** The node of the failed accept and the one of descriptor 8. */
  function Middle(): State {
    var c := Connection(2, 1, 0, false, false, None, false, 0);
    Opened().(io := Io(map[8 := c], [Node(0, 7), Node(1, 8)], 2, 2, 1, map[8 := ForRead], {8}, map[], []))
  }

  function Final(): State {
    var c := Connection(3, 2, LATE, false, false, None, false, 0);
    var m := Middle();
    m.(pc := Waiting, now := LATE,
       io := Io(m.io.connections[7 := c], m.io.timeouts + [Node(2, 7)], 3, 3, 2, m.io.armed[7 := ForRead],
                {7, 8}, map[], []))
  }

  lemma OpeningRun()
    ensures Possible(Start(0, 1, 0), OPENING) && After(Start(0, 1, 0), OPENING) == Opened()
  {
    var s0 := Start(0, 1, 0);
    var s1 := Next(s0, SetEventFd);
    var s2 := Next(s1, RegisterEventFd);
    var s3 := Next(s2, TestRunning);
    assert Next(s3, AcceptEvent) == Opened();
    Prepend(s3, AcceptEvent, []);
    Prepend(s2, TestRunning, [AcceptEvent]);
    Prepend(s1, RegisterEventFd, [TestRunning, AcceptEvent]);
    Prepend(s0, SetEventFd, [RegisterEventFd, TestRunning, AcceptEvent]);
  }

  lemma FailedAccept()
    ensures Accept(EMPTY_IO, 7, false, 0) == EMPTY_IO.(timeouts := [Node(0, 7)], nextId := 1, nextNode := 1)
  {
    assert Accept(EMPTY_IO, 7, false, 0).connections == map[];
  }

  lemma AcceptsRun()
    ensures Possible(Opened(), ACCEPTS) && After(Opened(), ACCEPTS) == Middle()
  {
    var s0 := Opened();
    FailedAccept();
    var s1 := Next(s0, AcceptOne(7, false));
    assert Next(s1, AcceptOne(8, true)) == Middle();
    Prepend(s1, AcceptOne(8, true), []);
    Prepend(s0, AcceptOne(7, false), [AcceptOne(8, true)]);
  }

  /** The clock passes the limit while descriptor 8 is idle. */
  function Waited(): State {
    Middle().(now := LATE)
  }

  lemma WaitRun()
    ensures Possible(Middle(), WAIT) && After(Middle(), WAIT) == Waited()
  {
    var s0 := Middle();
    var s1 := Next(s0, EndAccept);
    var s2 := Next(s1, Tick(LATE));
    var s3 := Next(s2, TestRunning);
    assert Next(s3, AcceptEvent) == Waited();
    Prepend(s3, AcceptEvent, []);
    Prepend(s2, TestRunning, [AcceptEvent]);
    Prepend(s1, Tick(LATE), [TestRunning, AcceptEvent]);
    Prepend(s0, EndAccept, [Tick(LATE), TestRunning, AcceptEvent]);
  }

  lemma ReuseRun()
    ensures Possible(Waited(), REUSE) && After(Waited(), REUSE) == Final()
  {
    var s0 := Waited();
    var s1 := Next(s0, AcceptOne(7, true));
    var s2 := Next(s1, EndAccept);
    assert Next(s2, TestRunning) == Final();
    Prepend(s2, TestRunning, []);
    Prepend(s1, EndAccept, [TestRunning]);
    Prepend(s0, AcceptOne(7, true), [EndAccept, TestRunning]);
  }

  lemma WholeRun()
    ensures ReachedBy(Final(), 0, 1, 0, WHOLE_RUN)
  {
    OpeningRun();
    AcceptsRun();
    WaitRun();
    ReuseRun();
    Join(Middle(), WAIT, REUSE);
    Join(Opened(), ACCEPTS, WAIT + REUSE);
    Join(Start(0, 1, 0), OPENING, ACCEPTS + (WAIT + REUSE));
  }

  /** A run that ends with connection 8 idle beyond the limit and the scan
      stopping in front of it, at the node the failed accept left behind. */
  lemma FailedRegistrationHidesIdleConnection()
    ensures ReachedBy(Final(), 0, 1, 0, WHOLE_RUN)
    ensures Expired(Final().io.connections, 8, LATE)
    ensures 8 in CheckTimeouts(Final().io, LATE).connections
    ensures Obstructed(Final().io, LATE)
  {
    WholeRun();
    var io := Final().io;
    assert io.timeouts[0] == Node(0, 7);
    assert Blocks(io.connections, io.timeouts[0], LATE);
    assert CheckTimeouts(io, LATE) == io;
    assert NoneUpTo(io.timeouts, 0, 8);
    assert !Own(io.connections, io.timeouts[0]);
  }
}
