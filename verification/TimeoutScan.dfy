/** The early-exit timeout scan against a full filter over the connections. */
module TimeoutScan {

  import opened Common
  import opened Reactor

  predicate Expired(conns: map<int, Connection>, fd: int, now: nat) {
    fd in conns && !conns[fd].isProcessing && now - conns[fd].lastActivity > READ_TIMEOUT
  }

  /** A node at which the scan stops. */
  predicate Blocks(conns: map<int, Connection>, n: Node, now: nat) {
    n.fd in conns && !conns[n.fd].isProcessing && now - conns[n.fd].lastActivity <= READ_TIMEOUT
  }

  /** The descriptors a scan of `list` closes, and the list it leaves, computed
      without ever changing the connection map. */
  function Closed(conns: map<int, Connection>, list: seq<Node>, now: nat): set<int> {
    if list == [] || Blocks(conns, list[0], now) then {}
    else (if Expired(conns, list[0].fd, now) then {list[0].fd} else {}) + Closed(conns, list[1..], now)
  }

  function Left(conns: map<int, Connection>, list: seq<Node>, now: nat): seq<Node> {
    if list == [] || Blocks(conns, list[0], now) then list
    else (if list[0].fd in conns && conns[list[0].fd].isProcessing then [list[0]] else []) + Left(conns, list[1..], now)
  }

  /** Dropping an expired connection up front changes nothing else. */
  lemma {:induction false} DropExpired(conns: map<int, Connection>, list: seq<Node>, fd: int, now: nat)
    requires Expired(conns, fd, now)
    ensures Closed(conns - {fd}, list, now) + {fd} == Closed(conns, list, now) + {fd}
    ensures fd !in Closed(conns - {fd}, list, now)
    ensures Left(conns - {fd}, list, now) == Left(conns, list, now)
  {
    if list != [] && !Blocks(conns, list[0], now) {
      DropExpired(conns, list[1..], fd, now);
    }
  }

  /** What the scan leaves, in terms of the connections it started with. */
  function Swept(io: Io, i: nat, now: nat): Io
    requires i <= |io.timeouts|
  {
    var hit := Closed(io.connections, io.timeouts[i..], now);
    io.(connections := io.connections - hit, armed := io.armed - hit, open := io.open - hit,
        gauge := io.gauge - |hit|,
        timeouts := io.timeouts[..i] + Left(io.connections, io.timeouts[i..], now))
  }

  lemma SweptStops(io: Io, i: nat, now: nat)
    requires i <= |io.timeouts| && (i < |io.timeouts| ==> Blocks(io.connections, io.timeouts[i], now))
    ensures Swept(io, i, now) == io
  {
    assert io.connections - {} == io.connections && io.armed - {} == io.armed;
    assert io.timeouts[..i] + io.timeouts[i..] == io.timeouts;
  }

  lemma SweptSkips(io: Io, i: nat, now: nat)
    requires i < |io.timeouts| && io.timeouts[i].fd in io.connections && io.connections[io.timeouts[i].fd].isProcessing
    ensures Swept(io, i, now) == Swept(io, i + 1, now)
  {
    var list := io.timeouts;
    assert list[i..][1..] == list[i + 1..];
    assert list[..i] + [list[i]] == list[..i + 1];
    assert list[..i] + ([list[i]] + Left(io.connections, list[i + 1..], now))
        == list[..i + 1] + Left(io.connections, list[i + 1..], now);
  }

  lemma SweptErases(io: Io, i: nat, now: nat)
    requires i < |io.timeouts| && io.timeouts[i].fd !in io.connections
    ensures Swept(io, i, now) == Swept(io.(timeouts := RemoveAt(io.timeouts, i)), i, now)
  {
    var list := io.timeouts;
    assert list[i..][1..] == list[i + 1..];
    assert RemoveAt(list, i)[..i] == list[..i] && RemoveAt(list, i)[i..] == list[i + 1..];
  }

  lemma ExpiredHead(conns: map<int, Connection>, n: Node, tail: seq<Node>, now: nat)
    requires Expired(conns, n.fd, now)
    ensures Closed(conns, [n] + tail, now) == Closed(conns - {n.fd}, tail, now) + {n.fd}
    ensures |Closed(conns, [n] + tail, now)| == |Closed(conns - {n.fd}, tail, now)| + 1
    ensures Left(conns, [n] + tail, now) == Left(conns - {n.fd}, tail, now)
  {
    assert ([n] + tail)[1..] == tail;
    DropExpired(conns, tail, n.fd, now);
  }

  lemma MinusBoth<T>(m: map<int, T>, hit: set<int>, fd: int)
    ensures m - (hit + {fd}) == m - {fd} - hit
  {
  }

  lemma SweptCloses(io: Io, i: nat, now: nat)
    requires i < |io.timeouts| && Expired(io.connections, io.timeouts[i].fd, now)
    ensures Swept(io, i, now)
         == Swept(Forget(io, io.timeouts[i].fd).(gauge := io.gauge - 1, timeouts := RemoveAt(io.timeouts, i)), i, now)
  {
    var conns, list, n, tail := io.connections, io.timeouts, io.timeouts[i], io.timeouts[i + 1..];
    var hit := Closed(conns - {n.fd}, tail, now);
    assert list[i..] == [n] + tail;
    ExpiredHead(conns, n, tail, now);
    MinusBoth(conns, hit, n.fd);
    MinusBoth(io.armed, hit, n.fd);
    assert RemoveAt(list, i)[..i] == list[..i] && RemoveAt(list, i)[i..] == tail;
    assert io.open - (hit + {n.fd}) == io.open - {n.fd} - hit;
  }

  lemma {:induction false} ScanMeaning(io: Io, i: nat, now: nat)
    requires i <= |io.timeouts|
    ensures Scan(io, i, now) == Swept(io, i, now)
    decreases |io.timeouts| - i
  {
    if i == |io.timeouts| || Blocks(io.connections, io.timeouts[i], now) {
      SweptStops(io, i, now);
    } else {
      var fd := io.timeouts[i].fd;
      var rest := RemoveAt(io.timeouts, i);
      if fd !in io.connections {
        SweptErases(io, i, now);
        ScanMeaning(io.(timeouts := rest), i, now);
      } else if io.connections[fd].isProcessing {
        SweptSkips(io, i, now);
        ScanMeaning(io, i + 1, now);
      } else {
        SweptCloses(io, i, now);
        ScanMeaning(Forget(io, fd).(gauge := io.gauge - 1, timeouts := rest), i, now);
      }
    }
  }

  /** Which connections are closed: the expired ones that some node reaches
      before the first blocking node. */
  ghost predicate Reached(conns: map<int, Connection>, list: seq<Node>, fd: int, now: nat) {
    exists k :: 0 <= k < |list| && list[k].fd == fd && forall j :: 0 <= j < k ==> !Blocks(conns, list[j], now)
  }

  lemma {:induction false} ClosedMeaning(conns: map<int, Connection>, list: seq<Node>, fd: int, now: nat)
    ensures fd in Closed(conns, list, now) <==> Expired(conns, fd, now) && Reached(conns, list, fd, now)
  {
    if list != [] && !Blocks(conns, list[0], now) {
      ClosedMeaning(conns, list[1..], fd, now);
      if fd != list[0].fd {
        if Reached(conns, list, fd, now) {
          var k :| 0 <= k < |list| && list[k].fd == fd && forall j :: 0 <= j < k ==> !Blocks(conns, list[j], now);
          assert list[1..][k - 1].fd == fd;
        }
        if Reached(conns, list[1..], fd, now) {
          var k :| 0 <= k < |list[1..]| && list[1..][k].fd == fd
                   && forall j :: 0 <= j < k ==> !Blocks(conns, list[1..][j], now);
          assert list[k + 1].fd == fd;
          assert forall j :: 1 <= j < k + 1 ==> list[j] == list[1..][j - 1];
        }
      }
    }
  }

  /** A left-over node of a reused, recently active descriptor in front of every
      node of an expired connection. */
  ghost predicate Obstructed(io: Io, now: nat) {
    exists i, fd :: 0 <= i < |io.timeouts|
      && !Own(io.connections, io.timeouts[i]) && Blocks(io.connections, io.timeouts[i], now)
      && Expired(io.connections, fd, now) && NoneUpTo(io.timeouts, i, fd)
  }

  ghost predicate NoneUpTo(list: seq<Node>, i: int, fd: int) {
    forall k :: 0 <= k <= i && k < |list| ==> list[k].fd != fd
  }

  /** The scan closes exactly the connections that are idle for longer than
      READ_TIMEOUT and not processing. */
  ghost predicate Exact(io: Io, now: nat) {
    forall fd :: fd in io.connections ==>
      (fd in CheckTimeouts(io, now).connections <==> !Expired(io.connections, fd, now))
  }

  lemma CheckTimeoutsMeaning(io: Io, now: nat)
    ensures CheckTimeouts(io, now) == io.(
              connections := io.connections - Closed(io.connections, io.timeouts, now),
              armed := io.armed - Closed(io.connections, io.timeouts, now),
              open := io.open - Closed(io.connections, io.timeouts, now),
              gauge := io.gauge - |Closed(io.connections, io.timeouts, now)|,
              timeouts := Left(io.connections, io.timeouts, now))
  {
    ScanMeaning(io, 0, now);
    assert io.timeouts[0..] == io.timeouts;
    assert io.timeouts[..0] == [];
  }

  lemma ExactUnlessObstructed(io: Io, now: nat)
    requires Structure(io, now)
    ensures Exact(io, now) <==> !Obstructed(io, now)
  {
    CheckTimeoutsMeaning(io, now);
    var conns, list := io.connections, io.timeouts;
    if Obstructed(io, now) {
      var i, fd :| 0 <= i < |list| && !Own(conns, list[i]) && Blocks(conns, list[i], now)
        && Expired(conns, fd, now) && NoneUpTo(list, i, fd);
      ClosedMeaning(conns, list, fd, now);
      assert fd in CheckTimeouts(io, now).connections;
    } else {
      forall fd | fd in conns
        ensures fd in CheckTimeouts(io, now).connections <==> !Expired(conns, fd, now)
      {
        ClosedMeaning(conns, list, fd, now);
        if Expired(conns, fd, now) {
          ReachedUnlessObstructed(io, fd, now);
        }
      }
    }
  }

  lemma ReachedUnlessObstructed(io: Io, fd: int, now: nat)
    requires Structure(io, now) && !Obstructed(io, now) && Expired(io.connections, fd, now)
    ensures Reached(io.connections, io.timeouts, fd, now)
  {
    var conns, list := io.connections, io.timeouts;
    var own := Node(conns[fd].node, fd);
    assert own in list;
    var p :| 0 <= p < |list| && list[p] == own;
    var k := FirstOf(list, fd, p);
    if m :| 0 <= m < k && Blocks(conns, list[m], now) {
      // An own blocking node before `p` contradicts the activity order, a
      // left-over one obstructs.
      assert Own(conns, own);
      assert NoneUpTo(list, m, fd);
      assert false;
    }
  }

  function FirstOf(list: seq<Node>, fd: int, p: nat): (k: nat)
    requires p < |list| && list[p].fd == fd
    ensures k <= p && list[k].fd == fd && forall j :: 0 <= j < k ==> list[j].fd != fd
  {
    if list[0].fd == fd then 0 else 1 + FirstOf(list[1..], fd, p - 1)
  }

  /** Without failed registrations there are no left-over nodes, and the early
      exit loses nothing. */
  lemma ExactWithoutStaleNodes(io: Io, now: nat)
    requires Structure(io, now) && NoStaleNodes(io)
    ensures Exact(io, now)
  {
    ExactUnlessObstructed(io, now);
  }

  // ------------------------------------------------- the scan as a transition

  lemma {:induction false} ScanKeepsStructure(io: Io, i: nat, now: nat)
    requires Structure(io, now) && i <= |io.timeouts|
    ensures Structure(Scan(io, i, now), now)
    decreases |io.timeouts| - i
  {
    if i < |io.timeouts| {
      var conns, list := io.connections, io.timeouts;
      var fd := list[i].fd;
      RemoveAtMembers(list, i, io.nextNode);
      RemoveAtKeepsOrder(conns, list, i);
      if fd !in conns {
        ScanKeepsStructure(io.(timeouts := RemoveAt(list, i)), i, now);
      } else if conns[fd].isProcessing {
        ScanKeepsStructure(io, i + 1, now);
      } else if now - conns[fd].lastActivity > READ_TIMEOUT {
        ForgetKeepsOrder(conns, RemoveAt(list, i), fd);
        assert (conns - {fd}).Keys == conns.Keys - {fd};
        assert |conns - {fd}| == |conns.Keys - {fd}| == |conns.Keys| - 1;
        ScanKeepsStructure(Forget(io, fd).(gauge := io.gauge - 1, timeouts := RemoveAt(list, i)), i, now);
      }
    }
  }

  lemma CheckTimeoutsKeepsNodes(io: Io, now: nat)
    requires Structure(io, now) && NoStaleNodes(io)
    ensures NoStaleNodes(CheckTimeouts(io, now))
  {
    CheckTimeoutsMeaning(io, now);
    forall n | n in Left(io.connections, io.timeouts, now)
      ensures Own(io.connections - Closed(io.connections, io.timeouts, now), n)
    {
      LeftMembers(io, io.timeouts, n, now);
    }
  }

  /** A surviving node belongs to a surviving connection. */
  lemma {:induction false} LeftMembers(io: Io, list: seq<Node>, n: Node, now: nat)
    requires DistinctNodes(list, io.nextNode)
    requires forall m :: m in list ==> Own(io.connections, m)
    requires n in Left(io.connections, list, now)
    ensures n in list && n.fd !in Closed(io.connections, list, now)
  {
    if list != [] && !Blocks(io.connections, list[0], now) {
      var rest := list[1..];
      assert DistinctNodes(rest, io.nextNode) by {
        assert forall k :: 0 <= k < |rest| ==> rest[k] == list[k + 1];
      }
      if n in Left(io.connections, rest, now) {
        LeftMembers(io, rest, n, now);
        assert n.fd != list[0].fd by {
          assert Own(io.connections, n) && Own(io.connections, list[0]);
          var k :| 0 <= k < |rest| && rest[k] == n;
          assert list[k + 1] == n;
        }
      } else {
        assert n == list[0] && io.connections[n.fd].isProcessing;
        ClosedMeaning(io.connections, list, n.fd, now);
      }
    }
  }
}
