/** The state owned by one I/O thread and what each of its handlers does to it.

    Everything here is private to the reactor thread: the connection map, the
    timeout list, the one-shot epoll masks.  Outcomes that the kernel decides
    (how a read or a write ends, whether `epoll_ctl` succeeds) are arguments. */
module Reactor {

  import opened Common

  // server::READ_TIMEOUT, 60 s, in ticks of the (nanosecond) steady clock.
  const READ_TIMEOUT: nat := 60_000_000_000

  /** One request and, later, its response: the captured fd and connection id,
      and the ordinal of the request on that connection. */
  datatype Job = Job(fd: int, conn: nat, no: nat)

  /** The one-shot mask of a registered descriptor; `Disarmed` after delivery. */
  datatype Mask = Disarmed | ForRead | ForWrite

  /** A node of the timeout list.  The id plays the part of the list iterator. */
  datatype Node = Node(id: nat, fd: int)

  datatype Connection = Connection(
    id: nat,
    node: nat,
    lastActivity: nat,
    closeAfterWrite: bool,
    isProcessing: bool,
    response: Option<Job>,
    parserMoved: bool,
    requests: nat)

  /** One run of the write loop: which connection it wrote to, which response,
      and whether the response went out completely. */
  datatype Sent = Sent(conn: nat, job: Job, complete: bool)

  datatype Io = Io(
    connections: map<int, Connection>,
    timeouts: seq<Node>,
    nextId: nat,
    nextNode: nat,
    gauge: int,
    armed: map<int, Mask>,
    open: set<int>,
    parked: map<nat, Mask>,
    log: seq<Sent>)

  // What the kernel and the request text decide about one call.
  datatype WriteOutcome = WroteAll | WouldBlock | WriteFailed
  datatype ReadOutcome =
    | ReadClosed
    | ReadIncomplete(rearmed: bool)
    | ReadMalformed
    | ReadAnswered(hangup: bool)
    | ReadDispatched(hangup: bool)

  /** What a read handler asks the shared queues to do next. */
  datatype Action = Nothing | Respond(job: Job) | Dispatch(job: Job) | UseAfterMove

  const EMPTY_IO := Io(map[], [], 0, 0, 0, map[], {}, map[], [])

  // ---------------------------------------------------------------- list

  function Position(list: seq<Node>, id: nat): (i: nat)
    ensures i <= |list|
    ensures i < |list| ==> list[i].id == id
    ensures forall k :: 0 <= k < i ==> list[k].id != id
  {
    if list == [] then 0
    else if list[0].id == id then 0
    else 1 + Position(list[1..], id)
  }

  function RemoveAt(list: seq<Node>, i: nat): seq<Node>
    requires i < |list|
  {
    list[..i] + list[i + 1..]
  }

  function Erase(list: seq<Node>, id: nat): seq<Node> {
    var i := Position(list, id);
    if i < |list| then RemoveAt(list, i) else list
  }

  function MoveToEnd(list: seq<Node>, id: nat): seq<Node> {
    var i := Position(list, id);
    if i < |list| then RemoveAt(list, i) + [list[i]] else list
  }

  // ------------------------------------------------------------ handlers

  function Touch(io: Io, fd: int, now: nat): Io
    requires fd in io.connections
  {
    var c := io.connections[fd];
    io.(connections := io.connections[fd := c.(lastActivity := now)],
        timeouts := MoveToEnd(io.timeouts, c.node))
  }

  function Forget(io: Io, fd: int): Io {
    io.(connections := io.connections - {fd}, armed := io.armed - {fd}, open := io.open - {fd})
  }

  function Close(io: Io, fd: int): Io {
    if fd in io.connections then
      Forget(io, fd).(timeouts := Erase(io.timeouts, io.connections[fd].node), gauge := io.gauge - 1)
    else
      Forget(io, fd)
  }

  function ModifyEpoll(io: Io, fd: int, mask: Mask, succeeds: bool): Io {
    if succeeds then io.(armed := io.armed[fd := mask]) else Close(io, fd)
  }

  /** One accepted descriptor.  `registered` is false when `add_to_epoll` throws:
      the descriptor and the map entry go away but the list node stays. */
  function Accept(io: Io, fd: int, registered: bool, now: nat): Io {
    var newcomer := Connection(0, 0, now, false, false, None, false, 0);
    var c := if fd in io.connections then io.connections[fd] else newcomer;
    var io1 := io.(
      connections := io.connections[fd := c.(id := io.nextId + 1, node := io.nextNode)],
      nextId := io.nextId + 1,
      nextNode := io.nextNode + 1,
      timeouts := io.timeouts + [Node(io.nextNode, fd)]);
    if registered then
      io1.(armed := io1.armed[fd := ForRead], open := io1.open + {fd}, gauge := io1.gauge + 1)
    else
      io1.(connections := io1.connections - {fd})
  }

  /** The timeout scan from list position `i` on. */
  function Scan(io: Io, i: nat, now: nat): Io
    decreases |io.timeouts| - i
  {
    if i >= |io.timeouts| then io
    else
      var fd := io.timeouts[i].fd;
      if fd !in io.connections then
        Scan(io.(timeouts := RemoveAt(io.timeouts, i)), i, now)
      else if io.connections[fd].isProcessing then
        Scan(io, i + 1, now)
      else if now - io.connections[fd].lastActivity <= READ_TIMEOUT then
        io
      else
        Scan(Forget(io, fd).(gauge := io.gauge - 1, timeouts := RemoveAt(io.timeouts, i)), i, now)
  }

  function CheckTimeouts(io: Io, now: nat): Io {
    Scan(io, 0, now)
  }

  /** `connection_state::reset`. */
  function Reset(c: Connection, now: nat): Connection {
    c.(response := None, closeAfterWrite := false, isProcessing := false, parserMoved := false,
       lastActivity := now)
  }

  function DoWrite(io: Io, fd: int, outcome: WriteOutcome, rearmed: bool, now: nat): Io
    requires fd in io.connections
  {
    var c := io.connections[fd];
    if c.response.None? then io
    else
      var io1 := Touch(io, fd, now).(log := io.log + [Sent(c.id, c.response.value, outcome == WroteAll)]);
      match outcome
      case WouldBlock => ModifyEpoll(io1, fd, ForWrite, rearmed)
      case WriteFailed => Close(io1, fd)
      case WroteAll =>
        if c.closeAfterWrite then Close(io1, fd)
        else
          var io2 := io1.(connections := io1.connections[fd := Reset(io1.connections[fd], now)]);
          ModifyEpoll(Touch(io2, fd, now), fd, ForRead, rearmed)
  }

  /** One item of `process_response_queue`. */
  function Deliver(io: Io, item: Job, outcome: WriteOutcome, rearmed: bool, now: nat): Io {
    if item.fd in io.connections && io.connections[item.fd].id == item.conn then
      var c := io.connections[item.fd].(isProcessing := false, response := Some(item));
      DoWrite(io.(connections := io.connections[item.fd := c]), item.fd, outcome, rearmed, now)
    else
      io
  }

  function OnRead(io: Io, fd: int, outcome: ReadOutcome, now: nat): (Io, Action) {
    if fd !in io.connections then (io, Nothing)
    else if io.connections[fd].parserMoved then (io, UseAfterMove)
    else
      var io1 := Touch(io, fd, now);
      var c := io1.connections[fd];
      var job := Job(fd, c.id, c.requests);
      match outcome
      case ReadClosed => (Close(io1, fd), Nothing)
      case ReadIncomplete(rearmed) => (ModifyEpoll(io1, fd, ForRead, rearmed), Nothing)
      case ReadMalformed =>
        (io1.(connections := io1.connections[fd := c.(closeAfterWrite := true, requests := c.requests + 1)]),
         Respond(job))
      case ReadAnswered(hangup) =>
        (io1.(connections := io1.connections[fd :=
              c.(closeAfterWrite := c.closeAfterWrite || hangup, parserMoved := true, requests := c.requests + 1)]),
         Respond(job))
      case ReadDispatched(hangup) =>
        (io1.(connections := io1.connections[fd :=
              c.(closeAfterWrite := c.closeAfterWrite || hangup, parserMoved := true, isProcessing := true,
                 requests := c.requests + 1)]),
         Dispatch(job))
  }

  function OnWrite(io: Io, fd: int, outcome: WriteOutcome, rearmed: bool, now: nat): Io {
    if fd in io.connections then DoWrite(io, fd, outcome, rearmed, now) else io
  }

  /** The last part of `handle_epoll_event`: EPOLLERR/EPOLLHUP, else EPOLLRDHUP. */
  function FinishEvent(io: Io, fd: int, err: bool, rdhup: bool): Io {
    if err && fd in io.connections then Close(io, fd)
    else if rdhup && fd in io.connections then
      io.(connections := io.connections[fd := io.connections[fd].(closeAfterWrite := true)])
    else io
  }

  /** Delivery of a one-shot event disarms its descriptor; an event that is only
      EPOLLRDHUP is remembered, because no handler re-arms after it. */
  function Disarm(io: Io, fd: int, bareRdhup: bool): Io {
    var io1 := io.(armed := io.armed[fd := Disarmed]);
    if bareRdhup && fd in io.connections && fd in io.armed
    then io1.(parked := io.parked[io.connections[fd].id := io.armed[fd]]) else io1
  }

  // --------------------------------------------------- structural invariant

  type Connections = map<int, Connection>

  /** The node its descriptor's connection points to, not a left-over one. */
  ghost predicate Own(conns: Connections, n: Node) {
    n.fd in conns && conns[n.fd].node == n.id
  }

  ghost predicate DistinctNodes(list: seq<Node>, bound: nat) {
    && (forall i :: 0 <= i < |list| ==> list[i].id < bound)
    && (forall i, j :: 0 <= i < j < |list| ==> list[i].id != list[j].id)
  }

  ghost predicate AllListed(conns: Connections, list: seq<Node>) {
    forall fd :: fd in conns ==> Node(conns[fd].node, fd) in list
  }

  ghost predicate InActivityOrder(conns: Connections, list: seq<Node>) {
    forall i, j :: 0 <= i < j < |list| && Own(conns, list[i]) && Own(conns, list[j]) ==>
      conns[list[i].fd].lastActivity <= conns[list[j].fd].lastActivity
  }

  ghost predicate NotAfter(conns: Connections, now: nat) {
    forall fd :: fd in conns ==> conns[fd].lastActivity <= now
  }

  ghost predicate DistinctIds(conns: Connections, bound: nat) {
    && (forall fd :: fd in conns ==> 1 <= conns[fd].id <= bound)
    && (forall a, b :: a in conns && b in conns && conns[a].id == conns[b].id ==> a == b)
  }

  ghost predicate Structure(io: Io, now: nat) {
    && io.open == io.connections.Keys == io.armed.Keys
    && io.gauge == |io.connections|
    && DistinctNodes(io.timeouts, io.nextNode)
    && AllListed(io.connections, io.timeouts)
    && InActivityOrder(io.connections, io.timeouts)
    && NotAfter(io.connections, now)
    && DistinctIds(io.connections, io.nextId)
  }

  /** Every list node belongs to the connection of its descriptor. */
  ghost predicate NoStaleNodes(io: Io) {
    forall n :: n in io.timeouts ==> Own(io.connections, n)
  }

  // ------------------------------------------------------------ list lemmas

  lemma RemoveAtMembers(list: seq<Node>, p: nat, bound: nat)
    requires p < |list| && DistinctNodes(list, bound)
    ensures DistinctNodes(RemoveAt(list, p), bound)
    ensures forall n :: n in RemoveAt(list, p) <==> n in list && n != list[p]
    ensures forall n :: n in RemoveAt(list, p) ==> n.id != list[p].id
  {
    var rest := RemoveAt(list, p);
    assert forall k :: 0 <= k < |rest| ==> rest[k] == list[if k < p then k else k + 1];
    forall n | n in list && n != list[p] ensures n in rest {
      var k :| 0 <= k < |list| && list[k] == n;
      assert rest[if k < p then k else k - 1] == n;
    }
  }

  lemma RemoveAtKeepsOrder(conns: Connections, list: seq<Node>, p: nat)
    requires p < |list| && InActivityOrder(conns, list)
    ensures InActivityOrder(conns, RemoveAt(list, p))
  {
    var rest := RemoveAt(list, p);
    forall i, j | 0 <= i < j < |rest| && Own(conns, rest[i]) && Own(conns, rest[j])
      ensures conns[rest[i].fd].lastActivity <= conns[rest[j].fd].lastActivity
    {
      var i0 := if i < p then i else i + 1;
      var j0 := if j < p then j else j + 1;
      assert rest[i] == list[i0] && rest[j] == list[j0] && i0 < j0;
    }
  }

  /** Order only looks at the own nodes, so fewer own nodes keep it. */
  lemma FewerOwnKeepsOrder(conns: Connections, conns': Connections, list: seq<Node>)
    requires InActivityOrder(conns, list)
    requires forall n :: n in list && Own(conns', n) ==>
      Own(conns, n) && conns'[n.fd].lastActivity == conns[n.fd].lastActivity
    ensures InActivityOrder(conns', list)
  {
  }

  lemma AppendKeepsOrder(conns: Connections, list: seq<Node>, n: Node)
    requires InActivityOrder(conns, list)
    requires Own(conns, n) ==> NotAfter(conns, conns[n.fd].lastActivity)
    ensures InActivityOrder(conns, list + [n])
  {
  }

  lemma PositionOf(list: seq<Node>, n: Node, bound: nat)
    requires n in list && DistinctNodes(list, bound)
    ensures Position(list, n.id) < |list| && list[Position(list, n.id)] == n
  {
    var j :| 0 <= j < |list| && list[j] == n;
  }

  // ----------------------------------------------- handlers keep the structure

  /** Fields the structure does not mention. */
  ghost predicate SameSkeleton(c: Connection, d: Connection) {
    c.id == d.id && c.node == d.node && c.lastActivity == d.lastActivity
  }

  lemma UpdateKeepsStructure(io: Io, fd: int, d: Connection, now: nat)
    requires Structure(io, now) && fd in io.connections && SameSkeleton(io.connections[fd], d)
    ensures Structure(io.(connections := io.connections[fd := d]), now)
    ensures NoStaleNodes(io) ==> NoStaleNodes(io.(connections := io.connections[fd := d]))
  {
    var conns' := io.connections[fd := d];
    assert conns'.Keys == io.connections.Keys;
    assert |conns'| == |conns'.Keys| == |io.connections.Keys|;
    FewerOwnKeepsOrder(io.connections, conns', io.timeouts);
  }

  lemma RefreshKeepsLists(conns: Connections, list: seq<Node>, fd: int, p: nat, bound: nat, now: nat)
    requires fd in conns && p < |list| && list[p] == Node(conns[fd].node, fd) && NotAfter(conns, now)
    requires DistinctNodes(list, bound) && AllListed(conns, list) && InActivityOrder(conns, list)
    ensures var conns' := conns[fd := conns[fd].(lastActivity := now)];
            var list' := RemoveAt(list, p) + [list[p]];
            DistinctNodes(list', bound) && AllListed(conns', list') && InActivityOrder(conns', list')
  {
    var conns' := conns[fd := conns[fd].(lastActivity := now)];
    var rest := RemoveAt(list, p);
    RemoveAtMembers(list, p, bound);
    RemoveAtKeepsOrder(conns, list, p);
    FewerOwnKeepsOrder(conns, conns', rest);
    AppendKeepsOrder(conns', rest, list[p]);
  }

  lemma RefreshKeepsIds(conns: Connections, fd: int, bound: nat, now: nat)
    requires fd in conns && DistinctIds(conns, bound) && NotAfter(conns, now)
    ensures var conns' := conns[fd := conns[fd].(lastActivity := now)];
            DistinctIds(conns', bound) && NotAfter(conns', now) && conns'.Keys == conns.Keys && |conns'| == |conns|
  {
    var conns' := conns[fd := conns[fd].(lastActivity := now)];
    assert conns'.Keys == conns.Keys;
    assert |conns'| == |conns'.Keys| == |conns.Keys|;
  }

  lemma TouchKeepsStructure(io: Io, fd: int, now: nat)
    requires Structure(io, now) && fd in io.connections
    ensures Structure(Touch(io, fd, now), now)
  {
    var conns, list, own := io.connections, io.timeouts, Node(io.connections[fd].node, fd);
    var p := Position(list, own.id);
    assert own in list;
    PositionOf(list, own, io.nextNode);
    assert Touch(io, fd, now) == io.(
      connections := conns[fd := conns[fd].(lastActivity := now)], timeouts := RemoveAt(list, p) + [list[p]]);
    RefreshKeepsLists(conns, list, fd, p, io.nextNode, now);
    RefreshKeepsIds(conns, fd, io.nextId, now);
  }

  lemma TouchKeepsNodes(io: Io, fd: int, now: nat)
    requires Structure(io, now) && fd in io.connections && NoStaleNodes(io)
    ensures NoStaleNodes(Touch(io, fd, now))
  {
    var list, p := io.timeouts, Position(io.timeouts, io.connections[fd].node);
    PositionOf(list, Node(io.connections[fd].node, fd), io.nextNode);
    RemoveAtMembers(list, p, io.nextNode);
  }

  lemma ForgetKeepsOrder(conns: Connections, list: seq<Node>, fd: int)
    requires InActivityOrder(conns, list)
    ensures InActivityOrder(conns - {fd}, list)
  {
    FewerOwnKeepsOrder(conns, conns - {fd}, list);
  }

  lemma CloseKeepsStructure(io: Io, fd: int, now: nat)
    requires Structure(io, now) && fd in io.connections
    ensures Structure(Close(io, fd), now)
  {
    var conns, list := io.connections, io.timeouts;
    assert (conns - {fd}).Keys == conns.Keys - {fd};
    assert |conns - {fd}| == |conns.Keys - {fd}| == |conns.Keys| - 1;
    var own := Node(conns[fd].node, fd);
    PositionOf(list, own, io.nextNode);
    var p := Position(list, own.id);
    RemoveAtMembers(list, p, io.nextNode);
    RemoveAtKeepsOrder(conns, list, p);
    ForgetKeepsOrder(conns, RemoveAt(list, p), fd);
  }

  lemma CloseKeepsNodes(io: Io, fd: int, now: nat)
    requires Structure(io, now) && fd in io.connections && NoStaleNodes(io)
    ensures NoStaleNodes(Close(io, fd))
  {
    var list, p := io.timeouts, Position(io.timeouts, io.connections[fd].node);
    PositionOf(list, Node(io.connections[fd].node, fd), io.nextNode);
    RemoveAtMembers(list, p, io.nextNode);
  }

  lemma InsertKeepsLists(conns: Connections, list: seq<Node>, nextNode: nat, fd: int, c: Connection, now: nat)
    requires fd !in conns && c.node == nextNode && c.lastActivity == now && NotAfter(conns, now)
    requires DistinctNodes(list, nextNode) && AllListed(conns, list) && InActivityOrder(conns, list)
    ensures DistinctNodes(list + [Node(nextNode, fd)], nextNode + 1)
    ensures AllListed(conns[fd := c], list + [Node(nextNode, fd)])
    ensures InActivityOrder(conns[fd := c], list + [Node(nextNode, fd)])
    ensures NotAfter(conns[fd := c], now)
  {
    var conns', list' := conns[fd := c], list + [Node(nextNode, fd)];
    FewerOwnKeepsOrder(conns, conns', list);
    AppendKeepsOrder(conns', list, Node(nextNode, fd));
    forall f | f in conns' ensures Node(conns'[f].node, f) in list' {
      if f == fd { assert list'[|list|] == Node(nextNode, fd); }
    }
  }

  lemma InsertKeepsIds(conns: Connections, nextId: nat, fd: int, c: Connection)
    requires fd !in conns && c.id == nextId + 1 && DistinctIds(conns, nextId)
    ensures DistinctIds(conns[fd := c], nextId + 1)
    ensures |conns[fd := c]| == |conns| + 1
  {
    assert |conns[fd := c]| == |conns[fd := c].Keys| && conns[fd := c].Keys == conns.Keys + {fd};
  }

  lemma RegisteredKeepsStructure(io: Io, fd: int, now: nat)
    requires Structure(io, now) && fd !in io.open
    ensures Structure(Accept(io, fd, true, now), now)
  {
    var c := Connection(io.nextId + 1, io.nextNode, now, false, false, None, false, 0);
    InsertKeepsLists(io.connections, io.timeouts, io.nextNode, fd, c, now);
    InsertKeepsIds(io.connections, io.nextId, fd, c);
    assert Accept(io, fd, true, now) == io.(
      connections := io.connections[fd := c], nextId := io.nextId + 1, nextNode := io.nextNode + 1,
      timeouts := io.timeouts + [Node(io.nextNode, fd)],
      armed := io.armed[fd := ForRead], open := io.open + {fd}, gauge := io.gauge + 1);
  }

  /** A failed registration forgets the descriptor again, but not its list node. */
  lemma FailedAcceptKeepsStructure(io: Io, fd: int, now: nat)
    requires Structure(io, now) && fd !in io.open
    ensures Structure(Accept(io, fd, false, now), now)
    ensures Accept(io, fd, false, now) ==
            io.(nextId := io.nextId + 1, nextNode := io.nextNode + 1,
                timeouts := io.timeouts + [Node(io.nextNode, fd)])
  {
    var list := io.timeouts + [Node(io.nextNode, fd)];
    assert Accept(io, fd, false, now).connections == io.connections;
    AppendKeepsOrder(io.connections, io.timeouts, Node(io.nextNode, fd));
  }

  /** Accepting keeps the structure whether or not the registration succeeds, and
      touches no other connection. */
  lemma AcceptKeepsStructure(io: Io, fd: int, registered: bool, now: nat)
    requires Structure(io, now) && fd !in io.open
    ensures var io' := Accept(io, fd, registered, now);
            && Structure(io', now)
            && io'.connections.Keys == io.connections.Keys + (if registered then {fd} else {})
            && (registered ==> io'.connections[fd].id == io.nextId + 1)
            && (forall g :: g in io.connections ==> io'.connections[g] == io.connections[g])
            && io'.timeouts == io.timeouts + [Node(io.nextNode, fd)]
  {
    if registered { RegisteredKeepsStructure(io, fd, now); } else { FailedAcceptKeepsStructure(io, fd, now); }
  }

  lemma AcceptKeepsNodes(io: Io, fd: int, now: nat)
    requires Structure(io, now) && fd !in io.open && NoStaleNodes(io)
    ensures NoStaleNodes(Accept(io, fd, true, now))
  {
  }
}
