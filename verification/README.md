# Verification model of the API server

A Dafny model of the parts of the server whose correctness is not visible in any
single function, with proofs of what they promise:

* **The I/O worker protocol.** One reactor thread owns the connections and the
  timeout list, hands requests to a worker pool through a bounded queue and gets
  responses back through a queue with an eventfd. `Reactor` holds the handlers,
  `ThreadPool` and `ResponseQueue` the shared parts, and `Protocol` interleaves
  them: every step makes at most one access to shared state. `ProtocolTheorems`,
  `ParkedConnections` and `TimeoutCounterexample` state what holds in every state
  of every run. `HandlerMeanings` says what each handler does to the connections
  and that the loops over a batch and over pending connections are runs of the
  protocol; `IoWorkers` is the class with its fields and loops, whose invariant is
  the protocol's. `ProtocolTurns` has the whole turns of the threads as runs.
  `SharedQueues`, `TaskPools` and `HttpResponses` are the queue, the pool and the
  write cursor as classes, and `QueueLinks` shows that both queues of the protocol
  are that shared queue.
* **The request parser.** `RequestParsers` (cached header facts, `finalize`),
  `Headers` (the header map), `Multipart` (form data), `SocketBuffers` (the
  growing buffer and the read loop), over the string operations in `Text` and the
  digit strings in `Decimals`. `ReadEvents` is the reactor's side: it reads, asks
  `eof` once per event and finalizes at the first yes. `PartMeanings` says what any
  form body whatever is read as, and `MultipartRoundTrip`, `CutForms`
  (a body that is not all there) and `FormRequests` say what of a client's form request
  the handler then gets.
* **Codecs.** `Base64`, `AesGcm`, `Otp` (Base32) and `Totp`, over the bit streams and the
  wrapping 32-bit accumulator of `BitStream`.
* **The result-set printer.** `SqlJson`, inverted by the reader in `JsonText`.

`dafny verify dfyconfig.toml` checks everything.

Text is modelled as sequences of bytes; times are ticks of the steady clock.
Standards are cited as the program implements them: RFC 2046, 4226, 4648, 6238,
7578, 8259, 9110 and 9112.

Six promises do not hold of the code as it stands, and the model says exactly
when they do:

* The timeout scan closes exactly the idle connections unless a node left over by
  a failed `add_to_epoll`, whose descriptor was reused by a recently active
  connection, stands in front of an idle one (`TimeoutScan.ExactUnlessObstructed`;
  a run that gets there is `TimeoutCounterexample.FailedRegistrationHidesIdleConnection`).
* `eof()` answers the same however the input is cut and however often it was asked
  before, unless the request line has no space: then the first call with the
  headers complete says no and every later one yes
  (`RequestParsers.EofMeaning`, `RequestParsers.SecondAskDiffers`).
* The JSON text of a result set reads back as the rows exactly when every non-null
  numeric cell is a number literal of section 6 of RFC 8259
  (`SqlJson.ResultRoundTrip`); the database is trusted for that. A decimal that
  comes with its point first is none (`SqlJson.LeadingPointIsLost`).
* The handler gets the announced body exactly when all of it has arrived at the end
  of the first read event that reaches the header end (`FormRequests.HandlerGetsWhatArrived`,
  `FormRequests.BodyIsWhole`). A form request whose first read event ends right
  behind the blank line is answered at once and loses every part
  (`FormRequests.HeadFirstLosesParts`). One that ends inside a content leaves a form
  that is accepted and whose last part is truncated (`FormRequests.TruncatedPartIsAccepted`).
  The client's parts come back exactly when enough has arrived: all of them, or all
  but what earlier parts make redundant, or all but the last line end
  (`FormRequests.PartsArriveExactly`, `CutForms.RecoveredExactly`).
* What follows the closing delimiter of a multipart body is to be ignored (section
  5.1.1 of RFC 2046). It is, unless its lines name a file or a field that no part
  has (`MultipartRoundTrip.MultipartRoundTrip`); an epilogue that looks like a part
  is read as one (`MultipartRoundTrip.DisguisedPartIsRead`).
* Whether a request fits the buffer is to be a matter of its size. It is one, unless
  the size is above three quarters of the limit and still fits one of the sizes below
  the limit that the buffer doubles through: then it depends on the sizes of the reads
  (`SocketBuffers.CutMattersExactly`; an instance is `SocketBuffers.CutDecides`). At a
  limit that is such a size itself it never does (`SocketBuffers.StepLimitIsExact`); at
  the default of 5 MiB it does between 3.75 and 4 MiB and nowhere else, and above 4 MiB
  every request is refused (`SocketBuffers.CutMattersAtDefault`).

The comment at src/http_request.cpp:398-399 calls a request line without a space
incomplete; `eof` says yes to it at the second call and `finalize` then rejects it,
and the model follows the code (`RequestParsers.SpacelessIsRejected`,
`ReadEvents.SpacelessServed`). A request without any header line, which an HTTP/1.0
client may send, and one that starts with a line end, is never complete: `eof` wants a
line between the request line and the blank line (src/http_request.cpp:393;
`ReadEvents.NeverServed`, `ReadEvents.NoHeaderLine`, `ReadEvents.LeadingBreak`).
The comment at src/http_request.cpp:228-229 speaks of waiting for body data; the
Content-Length test at 255-261 is never reached, so `eof()` waits for headers only.

## Model

| member | source | states |
|---|---|---|
| `ProtocolTheorems.OneTokenPerConnection` | src/server.cpp:78-118 | In every reachable state a live connection has exactly one of: armed for read, task queued, task executing, response queued under its id, in the reactor's hands, armed for write with a response; none if and only if it is parked by a bare EPOLLRDHUP |
| `ProtocolTheorems.NoReadOfMovedParser` | src/server.cpp:627-629 | The parser moved into a request is never read again before the reset |
| `ProtocolTheorems.ResponsesNeverCross` | src/server.cpp:202-212 | Under any interleaving and descriptor reuse, every write on a connection carries the answer to that connection's oldest unanswered request |
| `ProtocolTheorems.DeliveredOrDropped` | src/server.cpp:202-212 | A drained response is dropped exactly when its connection id is no longer live; otherwise it is written to that connection |
| `ProtocolTheorems.ShutdownLosesNothing` | src/server.cpp:215-259 | If the drain loop leaves through its condition, every accepted task has run and every pushed response was taken off the queue exactly once |
| `ProtocolTheorems.UnfinishedTasksAccounted` | src/thread_pool.hpp:65-74 | In every interleaving the counter is queued plus in-hand tasks plus pushes under way; zero means idle |
| `ProtocolTheorems.CounterNeverUnderflows` | src/thread_pool.hpp:96-114 | Whenever a thread is about to lower the counter it is positive, roll-backs of a full queue included |
| `ProtocolTheorems.QueuesAreFifo` | src/shared_queue.hpp:43-78 | Handed out followed by still queued equals pushed, for both queues in every interleaving; capacity holds; a worker leaves only a stopped, empty queue |
| `ProtocolTheorems.NoLostWakeup` | src/shared_queue.hpp:43-57 | A waiting response always has a deliverable eventfd event, a reactor between event and drain, or a pusher about to notify |
| `ProtocolTheorems.StopWakesReactor` | src/server.cpp:756-764 | After the stop sequence a reactor in epoll_wait has a deliverable event, even when stop ran before the eventfd was set, and some run of its own steps takes it to the drain |
| `ProtocolTheorems.DrainIsReached` | src/server.cpp:134-147 | Once the running flag is cleared, in every schedule of all threads the reactor is in the drain loop after a number of turns known beforehand, plus one for each response pushed meanwhile and each accepted connection |
| `ProtocolTheorems.ReactorStepGetsCloser` | src/server.cpp:134-147 | Every step of the reactor itself but one more accepted connection lowers that number |
| `ProtocolTheorems.NeverWaitsAgain` | src/server.cpp:134-147 | Once the running flag is cleared, a reactor outside epoll_wait never enters it again, over every further schedule |
| `ProtocolTheorems.GaugeCountsConnections` | src/server.cpp:441-462 | The gauge, the epoll set and the map agree on the live connections, failed registrations included |
| `ProtocolTheorems.TimeoutScanExactness` | src/server.cpp:151-188 | In every reachable state in epoll_wait the timer-tick step closes exactly the connections idle for more than 60 s without a task, if and only if no left-over node obstructs the scan, and changes nothing else |
| `ProtocolTheorems.TimeoutScanIsFilter` | src/server.cpp:151-188 | When every registration succeeded, nodes and connections correspond one to one in activity order and every tick is a full filter |
| `ProtocolTheorems.RunInv` | src/server.cpp:120-149 | The conjunction of all invariants is kept over every schedule |
| `ProtocolTokens.IoStep` | src/server.cpp:78-118 | Every step keeps the token of every connection and the soundness of map, list and masks |
| `ProtocolTokens.FlyingWorker` | src/thread_pool.hpp:93-117 | No worker step loses or copies a job: a popped task is running until its response is queued |
| `ProtocolTokens.FlyingHandle` | src/server.cpp:202-212 | Handling one item removes exactly that item from the jobs in flight |
| `ProtocolTokens.EventWithoutRead` | src/server.cpp:103-117 | A write event, an event of the final drain or a hang-up keeps every token, whatever the kernel answers |
| `ProtocolQueues.PoolStepWorker` | src/thread_pool.hpp:93-117 | Worker steps keep the counter equation and the FIFO order of tasks |
| `ProtocolQueues.WakeStepWorker` | src/shared_queue.hpp:52-56 | Worker steps keep the wake-up invariant: push before notify before the counter |
| `ProtocolQueues.WakeStepIo` | src/server.cpp:190-200 | The reactor's steps keep it: the eventfd is read before the queue is drained |
| `ProtocolQueues.StopStepWorker` | src/server.cpp:221-221 | The counter read as zero before the queue is read as empty stays zero under worker steps, so the exit condition is stable; a worker leaves only a stopped, empty pool |
| `ParkedConnections.OnlyTheScanReclaimsParked` | src/server.cpp:112-117 | No step but the timeout scan touches a parked connection |
| `ParkedConnections.OnlyBareRdhupTakesTheClaim` | src/server.cpp:112-117 | A step after which a live connection has lost its one claim on the next move is an event of its descriptor that is EPOLLRDHUP and nothing else |
| `TimeoutCounterexample.FailedRegistrationHidesIdleConnection` | src/server.cpp:457-460 | A complete run in which a failed registration hides an idle connection from the scan |
| `TimeoutScan.ExactUnlessObstructed` | src/server.cpp:158-188 | The scan equals the full filter if and only if no left-over node of a reused descriptor obstructs it |
| `TimeoutScan.CheckTimeoutsMeaning` | src/server.cpp:158-188 | The scan's effect on map, list, masks and gauge, computed without running it |
| `TimeoutScan.ClosedMeaning` | src/server.cpp:158-188 | A connection is closed exactly when it is expired and no blocking node comes before its first node |
| `TimeoutScan.ScanKeepsStructure` | src/server.cpp:158-188 | The scan keeps the correspondence and order of list and map |
| `Reactor.TouchKeepsStructure` | src/server.cpp:480-483 | Splicing to the end keeps the list in activity order |
| `Reactor.CloseKeepsStructure` | src/server.cpp:548-556 | Closing keeps list, map and gauge together |
| `ReactorSound.DoWriteSound` | src/server.cpp:512-546 | Every outcome of the write path keeps list, map, masks and gauge together |
| `Reactor.AcceptKeepsStructure` | src/server.cpp:441-462 | Accepting keeps the structure, whether the registration succeeds, with a fresh id at the end of the list, or fails and leaves only a list node |
| `Tokens.DoWriteTokens` | src/server.cpp:512-546 | A write of the outstanding response keeps one token, in every outcome |
| `Tokens.OnReadTokens` | src/server.cpp:485-504 | A complete request takes over the read token; the parser is not read after its move |
| `Tokens.DeliverTokens` | src/server.cpp:202-212 | Delivering a response in flight consumes exactly its token |
| `Tokens.FlyingMeetsConnection` | src/server.hpp:68-72 | A response whose id is live is the answer to that connection's outstanding request |
| `ThreadPool.ZeroMeansIdle` | src/thread_pool.hpp:89-91 | The counter is zero exactly when nothing is queued or running, and then all accepted tasks have run |
| `HandlerMeanings.TouchMeaning` | src/server.cpp:480-483 | A touched connection has the new time stamp and the last list node; no node is lost and no other connection changes |
| `HandlerMeanings.CloseMeaning` | src/server.cpp:548-556 | A close takes the connection out of map, epoll set and gauge, with its own list node and no other; an unknown descriptor changes nothing |
| `HandlerMeanings.WriteMeaning` | src/server.cpp:512-546 | After every outcome of a write: what was logged, whether the connection is gone, what it waits for next, and the whole connection record |
| `HandlerMeanings.ReadMeaning` | src/server.cpp:485-504 | After every outcome of a read: gone, armed again, or one more request of this connection for the queues with the descriptor left disarmed; and the whole connection record |
| `HandlerMeanings.EventMeaning` | src/server.cpp:78-118 | Every event keeps all invariants, hands over at most the pending request of its own connection and never reads a moved parser; after EPOLLERR or EPOLLHUP the connection is gone |
| `HandlerMeanings.ScanOutcome` | src/server.cpp:158-188 | A scan keeps all invariants, changes no survivor, and closes exactly the expired connections if and only if nothing obstructs it |
| `HandlerMeanings.BatchMeaning` | src/server.cpp:196-213 | The loop over a drained batch writes each response whose connection lives, in order, drops the others, and consumes exactly the batch's tokens |
| `HandlerMeanings.BatchIsRun` | src/server.cpp:202-212 | That loop is a schedule of single-item steps of the protocol |
| `HandlerMeanings.AcceptsMeaning` | src/server.cpp:441-478 | The accept loop gives consecutive ids, one list node each and a fresh connection for exactly the registered descriptors, leaves every older connection as it was and keeps all invariants |
| `HandlerMeanings.AcceptsAreRun` | src/server.cpp:441-478 | That loop is a schedule of single-accept steps of the protocol |
| `IoWorkers.IoWorker.OnTimerTick` | src/server.cpp:151-156 | The class invariant is kept, survivors are unchanged, and exactly the expired connections are closed if and only if no left-over node obstructs the scan |
| `IoWorkers.IoWorker.ScanTimeouts` | src/server.cpp:158-188 | The in-place erasing loop does what the scan of `TimeoutScan` and `HandlerMeanings.ScanOutcome` says |
| `IoWorkers.IoWorker.OnConnect` | src/server.cpp:441-478 | Over any mix of registered and failed descriptors: consecutive ids, the new list nodes in order, entries for exactly the registered ones, older connections unchanged, class invariant kept |
| `IoWorkers.IoWorker.TouchConnection` | src/server.cpp:480-483 | New time stamp, own node last, list a permutation, other connections unchanged, structure kept |
| `IoWorkers.IoWorker.CloseConnection` | src/server.cpp:548-556 | Gone from map, epoll set and gauge with exactly its own list node, others unchanged, structure kept |
| `IoWorkers.IoWorker.WriteResponse` | src/server.cpp:512-546 | One log entry for the connection's response; then gone, armed for write with the response kept, or reset and armed for read; others unchanged |
| `IoWorkers.IoWorker.ProcessBatch` | src/server.cpp:196-213 | The log grows by one write for each response whose connection lives, in batch order, and the batch's tokens are consumed |
| `IoWorkers.IoWorker.ReadRequest` | src/server.cpp:485-504 | Reads a moved parser exactly when there is one; otherwise what becomes of the connection and which request goes to the queues, by outcome |
| `IoWorkers.IoWorker.HandleEvent` | src/server.cpp:78-118 | From the class invariant to the class invariant with the handed-over request in flight; no moved parser is read; only the event's connection changes |
| `ProtocolTurns.ReadTurn` | src/server.cpp:78-118 | A read event and the pushes it causes, as a run: the handlers' effect on the connections, and exactly the request handed over on the response queue, or in the pool, or, when that is full, answered with the counter back where it was |
| `ProtocolTurns.WriteTurn` | src/server.cpp:103-117 | A write event, as a step: the handlers' effect and nothing shared touched |
| `ProtocolTurns.StopTurn` | src/server.cpp:230-256 | An event of the final drain is handled like any other, but a readable descriptor is closed |
| `ProtocolTurns.SignalTurn` | src/server.cpp:190-213 | A signal resets the eventfd, then the whole queue is taken and delivered |
| `ProtocolTurns.DrainTestRun` | src/server.cpp:221-221 | The drain loop goes on exactly while the counter is positive or the queue is not empty |
| `ProtocolTurns.DrainTurn` | src/server.cpp:221-228 | One turn of it delivers everything queued and comes back to the condition |
| `ProtocolTurns.WorkerTurn` | src/thread_pool.hpp:93-117 | A worker's turn: the oldest task is run, its response pushed and signalled, the counter one lower, the worker free again |
| `ProtocolTurns.SetUpTurn` | src/server.cpp:69-75 | The set-up stores the eventfd and then registers it; a signal written in between is reported at once |
| `ProtocolTurns.LoopTurn` | src/server.cpp:135-147 | The loop condition leads to epoll_wait while nobody has asked to stop, otherwise to the final drain |
| `ProtocolTurns.IdleTurn` | src/server.cpp:136-141 | An interrupted wait changes nothing, a failed one ends the worker without the drain, a signal already read is used up |
| `ProtocolTurns.StopIdleTurn` | src/server.cpp:224-230 | The wait of the drain loop: a time-out or a signal goes back to its condition, a failure ends the worker |
| `ProtocolTurns.TimerTurn` | src/server.cpp:151-156 | A timer tick is one scan (whose effect is `ProtocolTheorems.TimeoutScanExactness`) and touches nothing else |
| `ProtocolTurns.AcceptTurn` | src/server.cpp:441-478 | An event of the listening socket, as a run: every pending client accepted and nothing else touched |
| `ProtocolTurns.StopSequence` | src/server.cpp:761-764 | Stopping clears the flag and writes exactly one signal |
| `ProtocolTurns.PoolStopTurn` | src/thread_pool.hpp:47-60 | After the I/O worker has ended the pool is stopped, and a free worker with no task left goes away |
| `ProtocolTurns.EndedForGood` | src/server.cpp:120-149 | In every run from there on an I/O worker that has ended touches no connection and delivers nothing |
| `QueueLinks.TasksAreSharedQueue` | src/thread_pool.hpp:65-117 | Every schedule acts on the task queue as a run of a shared queue; what that run takes in and hands out is what was accepted and popped, in order |
| `QueueLinks.ResponsesAreSharedQueue` | src/shared_queue.hpp:43-91 | The same of the response queue: what was pushed and what was drained |
| `SharedQueues.FifoExactlyOnce` | src/shared_queue.hpp:43-78 | Over any sequence of operations under the lock, items leave in push order, each once |
| `SharedQueues.CapacityHolds` | src/shared_queue.hpp:43-50 | A positive capacity is never exceeded |
| `SharedQueues.SharedQueue.Push` | src/shared_queue.hpp:43-57 | Refused without a trace exactly when a positive capacity is reached, otherwise appended and signalled if a descriptor is set |
| `SharedQueues.SharedQueue.WaitAndPop` | src/shared_queue.hpp:59-70 | The oldest item; nothing only when stopped and empty |
| `SharedQueues.SharedQueue.DrainTo` | src/shared_queue.hpp:72-78 | The loop appends all items in order and empties the queue |
| `SharedQueues.SharedQueue.Stop` | src/shared_queue.hpp:80-91 | Stops and signals |
| `TaskPools.TaskPool.PushTask` | src/thread_pool.hpp:65-74 | The difference of counter and queue is unchanged whether or not the push throws |
| `TaskPools.TaskPool.WorkerLoop` | src/thread_pool.hpp:93-117 | While others push rounds of tasks and stop the pool in the end, the worker runs everything queued and everything accepted since, in order, leaves an empty queue, and the counter falls by exactly what it ran |
| `TaskPools.UnboundedAdmitsAll` | src/thread_pool.hpp:21-24 | With capacity 0 every task of every round is accepted |
| `HttpResponses.WireIsPrefix` | src/server.cpp:519-534 | Over any number of write events the bytes on the wire are the response's, in order, each once |
| `HttpResponses.CompletionDeliversAll` | src/server.cpp:536-545 | When the write path reports completion the whole response is on the wire |
| `HttpResponses.FlushedMeaning` | src/server.cpp:519-534 | The loop stops early exactly when an answer other than a success comes before the successes have taken all that is pending, as blocked at EAGAIN and as failed at any other error, having sent the sum of what they took |
| `HttpResponses.ResponseBuffer.Flush` | src/server.cpp:519-534 | The same of the loop over the spans; what it sent and what is still pending are what was pending |
| `HttpResponses.ResponseBuffer.Set` | src/http_response.hpp:74-108 | Only the first body is kept |
| `SocketBuffers.AmortisedGrowth` | src/socket_buffer.hpp:24-39 | Over any legal run all growths copy less than 8/3 of the bytes received, the size stays bounded and room is left |
| `SocketBuffers.SocketBuffer.UpdatePos` | src/socket_buffer.hpp:24-39 | Received bytes survive growth; above three quarters the size doubles up to the limit, and it throws exactly at the limit; free space otherwise |
| `SocketBuffers.ReadLoop` | src/server.cpp:558-607 | The read loop always finds free space, so its empty-buffer branch is dead, and collects the peer's bytes in order; up to three quarters of the largest buffer it takes them all whatever the read sizes |
| `SocketBuffers.TakenForEveryCut` | src/socket_buffer.hpp:24-39 | A total is taken for every way of cutting it into reads if and only if it is at most three quarters of the largest buffer (one byte more when the last growth is by one byte) |
| `SocketBuffers.TakenForSomeCut` | src/socket_buffer.hpp:24-39 | A total is taken for some way of cutting it if and only if it is within three quarters of the largest buffer or within a size below the limit that the buffer doubles through |
| `SocketBuffers.CutMattersExactly` | src/socket_buffer.hpp:24-39 | One cut of a total is taken and another refused if and only if the total is not safe and such a size holds it |
| `SocketBuffers.StepLimitIsExact` | src/socket_buffer.hpp:24-39 | At a limit that the doubling meets, the cut never decides |
| `SocketBuffers.CutMattersAtDefault` | src/socket_buffer.hpp:66-73 | At the default limit every cut is taken up to exactly 3932160 bytes and some cut up to exactly 4194304 bytes, so only in between the cut decides |
| `SocketBuffers.CutDecides` | src/socket_buffer.hpp:24-39 | Two cuts of the same 15500 bytes at a limit of 20480, one taken and one refused |
| `ReadEvents.ServeMeaning` | src/server.cpp:485-504 | With a spaced request line and a header line: unless the connection is closed, the request is finalized on exactly the bytes that have arrived at the end of the first read event that reaches the header end |
| `ReadEvents.NeverServed` | src/http_request.cpp:388-396 | Otherwise, with no header line or no request line: never finalized, however much follows |
| `ReadEvents.NeverServedWaits` | src/server.cpp:485-504 | Such a client, if it does not hang up and stays within the safe total, is left waiting |
| `ReadEvents.NoHeaderLine` | src/http_request.cpp:388-396 | One line and a blank line is such a head, whatever follows |
| `ReadEvents.LeadingBreak` | src/http_request.cpp:388-396 | So is anything that starts with a line end |
| `ReadEvents.SpacelessServed` | src/http_request.cpp:398-402 | Otherwise, without a space in the request line: finalized on what has arrived one read event later |
| `ReadEvents.SpacelessNeverAccepted` | src/http_request.cpp:484-501 | And then rejected |
| `ReadEvents.SafeRequestsAreServed` | src/server.cpp:558-607 | A client that does not hang up and stays within the safe total is never closed on while its request is read |
| `RequestParsers.EofMeaning` | src/http_request.cpp:231-264 | Exactly when `eof` says yes after any run of reads and calls |
| `RequestParsers.ChunkingIndependent` | src/http_request.cpp:362-426 | Cached header end and method after `eof` depend only on the bytes, and so does its answer when the request line has a space |
| `RequestParsers.AgreementWithoutSpace` | src/http_request.cpp:398-402 | Without a space two runs over the same bytes agree exactly when both or neither asked before |
| `RequestParsers.SecondAskDiffers` | src/http_request.cpp:398-402 | Any request line without a space, with any header line behind it, is refused at the first call and accepted at the second |
| `RequestParsers.SpacelessIsRejected` | src/http_request.cpp:484-501 | A request line without a space is always rejected in the end |
| `RequestParsers.CompleteIsStable` | src/http_request.cpp:231-264 | A complete request stays complete with the same facts under appending |
| `RequestParsers.SliceDoesNotWrap` | src/http_request.cpp:302-303 | The first CRLF ends before the first CRLFCRLF begins, so the unsigned slice length is exact and in the buffer |
| `RequestParsers.HeadIgnoresBody` | src/http_request.cpp:285-307 | Method, path and header map depend only on the bytes before the header end |
| `RequestParsers.HeaderOnly` | src/http_request.cpp:231-264 | The header bytes alone already make `eof` answer as with the body behind them |
| `RequestParsers.MethodMeaning` | src/http_request.cpp:398-422 | The method is GET, POST, PUT, PATCH or OPTIONS exactly when the line starts with that word and a space, and unknown otherwise |
| `RequestParsers.HeadMeaning` | src/http_request.cpp:484-572 | A head is accepted exactly when one of the five methods, the path and every header line are allowed; then the method is that of the line, and every name is found with its first value |
| `RequestParsers.LineErrors` | src/http_request.cpp:484-524 | Why a request line is rejected: empty, no target, a query, more than 2048 characters, or an invalid path, in this order |
| `RequestParsers.HeadErrors` | src/http_request.cpp:285-307 | The request line is judged before the method, and the method before the header lines |
| `RequestParsers.BodyMeaning` | src/http_request.cpp:310-360 | The body is accepted exactly as announced, and what is stored: nothing for GET, OPTIONS or an empty announcement, else the announced bytes that are there, as text or as the form read from them |
| `RequestParsers.BodyErrors` | src/http_request.cpp:325-360 | Why a body is rejected: a POST without a valid length, no type, a type that is not read, text that is no JSON, or no boundary |
| `RequestParsers.BoundaryMeaning` | src/http_request.cpp:595-606 | The boundary is what follows the first `boundary=`, less a quote at either end |
| `RequestParsers.RequestParser.Eof` | src/http_request.cpp:231-264 | The method with its cached fields, all three exits |
| `RequestParsers.FinalizedMeaning` | src/http_request.cpp:268-360 | A complete request is accepted exactly when request line, header lines and body announcement are each allowed, and its body is then the one stored |
| `RequestParsers.RequestParser.Finalize` | src/http_request.cpp:268-360 | Running the header and form loops: accepted exactly when `eof` says yes and line, headers and body announcement are allowed; the method is that of the five words, every header name is found with its first value, the body is the announced bytes that are there, and a failure stores nothing |
| `Headers.HeadersMeaning` | src/http_request.cpp:526-572 | `parse_headers` succeeds exactly on permitted lines (tokens of RFC 9110, at most 50 names, the three named rules), and then a lookup of any name in any case gives the first trimmed value a line has for it, with one entry per name |
| `Headers.RejectionMeaning` | src/http_request.cpp:533-570 | The first line that breaks a rule decides the error, and which rule of its line comes first |
| `Headers.TokenMeaning` | src/http_request.cpp:15-32 | A field name is made of the characters of section 5.6.2 of RFC 9110 |
| `Text.CiEqualMeaning` | src/http_request.hpp:39-47 | Names are equal exactly when they differ at most in the case of the 26 letters |
| `Headers.AtMostFiftyNames` | src/http_request.cpp:535-538 | At most 50 distinct names are accepted |
| `Headers.ParseHeaders` | src/http_request.cpp:526-572 | The loop over the lines: success exactly on permitted lines, and lookups that find the first value |
| `Headers.EqualNamesHashEqually` | src/http_request.hpp:28-47 | Names equal for the map hash equally despite wrap-around |
| `Headers.HashStep` | src/http_request.hpp:28-37 | Shift and addition multiply by 33 modulo 2^64, starting from 5381 |
| `Headers.ComputeCiHash` | src/http_request.hpp:28-37 | The hash loop is that wrapping fold over lower-cased characters |
| `Text.TrimMeaning` | src/http_request.cpp:73-79 | Trimming removes exactly the surrounding spaces and tabs |
| `Text.FindInPrefix` | src/http_request.cpp:362-374 | What is found in a prefix is found at the same place in the whole |
| `Text.SplitMeaning` | src/http_request.cpp:614-622 | The pieces with the delimiter between them are the text again, each cut at the first occurrence that is left |
| `Multipart.BaseName` | src/http_request.cpp:82-87 | What follows the last path separator, and no separator in it |
| `Multipart.BreakMeaning` | src/http_request.cpp:137-160 | The tokenizer cuts at the first semicolon that no open quote covers |
| `PartMeanings.TokensMeaning` | src/http_request.cpp:137-160 | The tokens of any value with semicolons between them are the value again; every semicolon within one is in quotes |
| `PartMeanings.UnquoteMeaning` | src/http_request.cpp:115-122 | Quotes go as a pair, an opening one also alone, and a bare value stays |
| `PartMeanings.PartHeadersMeaning` | src/http_request.cpp:105-178 | For any lines: the last name and the last file name (less its directories) among the tokens of all Content-Disposition lines, and the last Content-Type, trimmed; none where no line gives one |
| `PartMeanings.HeadAndContentMeaning` | src/http_request.cpp:181-203 | Any part is cut at its first blank line, where it has none at its first pair of line feeds, and otherwise not read |
| `Multipart.ExtractParams` | src/http_request.cpp:137-160 | The quote-aware loop applies every token in order |
| `Multipart.ParsePartHeaders` | src/http_request.cpp:133-178 | The loop over a part's header lines |
| `Multipart.ParseForm` | src/http_request.cpp:614-622 | The loop over the pieces between delimiters |
| `PartMeanings.FormMeaning` | src/http_request.cpp:181-216 | The form of any body: the files among the pieces, in order, and for each name the first piece that is a field of that name |
| `MultipartRoundTrip.MultipartRoundTrip` | src/http_request.cpp:105-216 | Rendering parts and parsing the body gives the same files in order byte for byte and the first value of every plain field, with any preamble and any epilogue that lacks the delimiter, if and only if the epilogue names no file and no new field |
| `MultipartRoundTrip.DisguisedPartIsRead` | src/http_request.cpp:614-622 | An epilogue in the form of a part adds it, unless it is a field some part already has |
| `MultipartRoundTrip.UsualEpiloguesAddNothing` | src/http_request.cpp:614-622 | An empty epilogue and a line end add nothing |
| `CutForms.CutMeaning` | src/http_request.cpp:614-622 | Of a rendered body cut at any byte the reader makes the parts before the cut and, of the cut part, nothing up to its blank line and from there on what is there as its whole content |
| `CutForms.RecoveredExactly` | src/http_request.cpp:614-622 | The client's parts come back from the first m bytes, for every m, if and only if those are enough: whole parts or the end of a content, with only redundant fields behind, and nothing added by what is there of the epilogue |
| `CutForms.LastContentDecides` | src/http_request.cpp:614-622 | When every part is a file or the first field of its name, a cut before the closing delimiter is late enough only at the end of the last content |
| `CutForms.CutContentCases` | src/http_request.cpp:181-213 | What the content of a cut part comes out as: short, short by a line end of its own, with a CR too many, right, or with a piece of the delimiter |
| `CutForms.TruncatedIsStored` | src/http_request.cpp:181-216 | A cut in a content stores that much of it as a whole part |
| `CutForms.EarlyCutReadsNothing` | src/http_request.cpp:614-622 | A body cut anywhere before the first byte of its first content reads as an empty form |
| `MultipartRoundTrip.PartMeaning` | src/http_request.cpp:181-216 | One rendered part is stored under its names with its exact content |
| `MultipartRoundTrip.BodyPieces` | src/http_request.cpp:614-622 | Splitting at the delimiter gives back the rendered parts; nothing straddles |
| `FormRequests.HandlerGetsWhatArrived` | src/server.cpp:485-504 | Whatever reads bring a rendered form request, unless the connection is closed the handler gets its path and the form of exactly the body bytes that had arrived when the head was complete |
| `FormRequests.BodyIsWhole` | src/http_request.cpp:614-616 | The body text that is parsed is the announced body if and only if all of it was in the buffer |
| `FormRequests.PartsRecoveredWhenArrived` | src/http_request.cpp:268-360 | If it was, the handler gets exactly the client's parts if and only if the epilogue adds none |
| `FormRequests.FormAtMeaning` | src/http_request.cpp:268-360 | The form at every byte behind the head: the parts before it and as much as is there of the one it falls in |
| `FormRequests.PartsArriveExactly` | src/server.cpp:485-504 | Whatever reads bring the request, unless the connection is closed the handler gets the client's parts if and only if enough of the body has arrived at the end of the first read event that reaches the header end |
| `FormRequests.PartsLostWhenEarly` | src/http_request.cpp:268-360 | If no byte of the first content had arrived, the form is empty and every part is lost |
| `FormRequests.TruncatedPartIsAccepted` | src/server.cpp:494-500 | A read event that ends inside the content of any part, and not behind a line end, has the request accepted with that part truncated |
| `FormRequests.HeadFirstLosesParts` | src/server.cpp:494-500 | Every form request with a part can lose them all: one read event that ends behind the blank line is enough |
| `FormRequests.FormRequestRoundTrip` | src/server.cpp:485-504 | A request within the safe total from a client that does not hang up is served with all its parts when the read event that completes the head also completes the body |
| `FormRequests.RenderedHeadAnnounces` | src/http_request.cpp:285-349 | A rendered request line and its Host, Content-Type and Content-Length lines parse to the method, path, type and length that were put in, whatever follows |
| `FormRequests.BoundaryRoundTrip` | src/http_request.cpp:595-606 | The boundary parameter comes back, quoted or not |
| `BitStream.PackUnpack` | src/aes_gcm.hpp:59-71 | Regrouping a bit stream loses nothing; a short tail does not matter |
| `BitStream.DigitStep` | src/aes_gcm.hpp:63-69 | One turn of a decoder: the wrapped accumulator still knows the pending bits and the byte given out is the stream's |
| `BitStream.WrapKeepsLow` | src/otp.hpp:76-77 | 32-bit wrap-around leaves the low bits alone |
| `Base64.Base64Encode` | src/aes_gcm.hpp:38-51 | The encoder loop computes section 4 of RFC 4648 |
| `Base64.Base64Decode` | src/aes_gcm.hpp:53-72 | The decoder loop gives the complete bytes of the sextets before the first `=`, or fails on a foreign character before it |
| `Base64.Base64RoundTrip` | src/aes_gcm.hpp:38-72 | Decoding undoes encoding for byte strings of any length |
| `Base64.AlphabetMeaning` | src/aes_gcm.hpp:35-36 | The alphabet is that of Table 1 of RFC 4648, position by position in both directions, and nothing else |
| `Base64.EncodedLength` | src/aes_gcm.hpp:38-40 | Four characters for every three bytes begun |
| `AesGcm.DecryptUndoesEncrypt` | src/aes_gcm.hpp:95-204 | Given a primitive that opens what it sealed, `decrypt` undoes `encrypt` through the 12/16/N framing |
| `AesGcm.EncryptedLength` | src/aes_gcm.hpp:139-146 | 12 + 16 + N bytes of framing, four characters for every three |
| `AesGcm.EncryptMeaning` | src/aes_gcm.hpp:95-147 | With a key of 32 bytes and no other, the text decodes to nonce, tag and cipher text in this order |
| `AesGcm.DecryptMeaning` | src/aes_gcm.hpp:157-204 | A text is decrypted exactly when the key has 32 bytes and its first 12 bytes as nonce and next 16 as tag open the rest |
| `AesGcm.Encrypt` | src/aes_gcm.hpp:95-147 | Key check and framing |
| `AesGcm.Decrypt` | src/aes_gcm.hpp:157-204 | Key check, length check, un-framing and tag mismatch |
| `Otp.DecodeBase32` | src/otp.hpp:58-85 | The loop gives the complete bytes of the 5-bit groups and fails exactly on a character outside the alphabet |
| `Otp.Base32Length` | src/otp.hpp:58-85 | floor(5k/8) bytes from k significant characters |
| `Otp.Base32RoundTrip` | src/otp.hpp:58-85 | Decoding undoes the encoder of section 6 of RFC 4648 |
| `Otp.LookupMeaning` | src/otp.hpp:45-55 | Letters in either case and the digits 2 to 7 have their position in Table 3 of RFC 4648; every other character is refused |
| `Otp.SkippedMeaning` | src/otp.hpp:66-66 | Padding and the six whitespace characters are skipped |
| `Totp.BigEndian` | src/otp.hpp:92-96 | The byte loop serialises the counter most significant byte first |
| `Totp.CounterBytesInjective` | src/otp.hpp:92-96 | Different counters give different messages |
| `Totp.Truncate` | src/otp.hpp:111-120 | The offset stays inside the hash and the value is the low 31 bits at it (section 5.3 of RFC 4226) |
| `Totp.CodeMeaning` | src/otp.hpp:122-125 | The code has exactly the asked number of digits and denotes the value modulo ten to that power, for 6 digits 1000000 and for 8 digits 100000000 |
| `Totp.DigitsBelow` | src/otp.hpp:122-125 | Every string of n digits denotes a number below that power, and n nines the last one |
| `Decimals.DenotedInjective` | src/otp.hpp:122-125 | No other string of that length denotes it |
| `Totp.IsValidToken` | src/otp.hpp:139-191 | Accepts exactly the tokens of 6 or 8 digits that denote the last 31 bits modulo 1000000 or 100000000 of the hash of some step of the clamped window, with no earlier step failing |
| `Totp.AcceptedWithoutFailures` | src/otp.hpp:174-184 | When HMAC never fails, acceptance is a match in the window (section 5.2 of RFC 6238) |
| `SqlJson.ResultRoundTrip` | src/sql.tpp:432-457 | A JSON reader recovers rows, column names and cell bytes if and only if every numeric cell is a number literal (and rows have columns) |
| `SqlJson.RowRoundTrip` | src/sql.tpp:390-430 | One printed row reads back as its members in column order |
| `SqlJson.StringRoundTrip` | src/sql.tpp:312-334 | The reader inverts the escaper whatever follows |
| `SqlJson.EscapeInjective` | src/sql.tpp:312-334 | Different strings are printed differently |
| `SqlJson.AppendEscaped` | src/sql.tpp:312-334 | The loop, with its signed-char test, emits a quote, the escaped text and a quote |
| `SqlJson.JsonEscape` | src/logger.hpp:56-79 | The logger's escaper emits the same escaped text |
| `SqlJson.FetchAndBuildJson` | src/sql.tpp:432-457 | The row loop and its commas |
| `SqlJson.BadNumberIsLost` | src/sql.tpp:364-388 | A numeric cell that is no literal never reads back as itself |
| `SqlJson.LeadingPointIsLost` | src/sql.tpp:364-388 | A numeric cell that begins with its decimal point is one that never reads back |

## Left out

- Memory order: sequential consistency is assumed; each step is one access to shared state.
- epoll: one event is delivered at a time, so no event outlives its descriptor; a one-shot mask disarms at delivery.
- Condition variables: a waiting worker is assumed to take a task when there is one.
- Connection ids and list nodes are unbounded; the 64-bit wrap of `m_next_connection_id` is not modelled.
- Several I/O workers: each has its own queues, pool and connections; the gauge is one worker's contribution.
- Exceptions other than `queue_full_error` and `server_error` in the reactor, and a handler that throws before its response is pushed.
- Set-up failures and `util::get_peer_ip_ipv4` failing.
- Partly written responses at shutdown: the drain loop does not wait for them, and no claim is made.
- Body completeness: `eof` does not wait for the body. For form requests the model says what the handler then gets; JSON bodies are left to the JSON parser.
- Routing, CORS, the internal API, validators and handlers: which of the response or dispatch outcomes a request takes is the environment's choice.
- AES-GCM and HMAC: assumed primitives (what they must satisfy is stated in the requires of the members that use them); key generation and random bytes are arguments.
- The JSON request parser: its verdict on a body is an argument of `finalize`.
- A second `finalize` after a failed one, which would see the header map of the first: the server closes or resets the connection instead.
- ODBC binding, `SQLGetData` chunks, reconnects: the printer starts from fetched cells.
- The JSON reader covers arrays of flat objects and `\u` escapes below the surrogates; it works on bytes and does not check UTF-8.
- Locale: `isalnum`, `isspace` and `tolower` are those of the C locale.
- The formatted response header (date, CORS, status line) is an argument of `ResponseBuffer.Set`.
- IsValidToken: the clock is an argument, and settings other than 30 or 60 seconds with window 0 or 1 do not exist in the code.
- ThreadPool: the pool's threads are modelled on values, as program counters in the transition system; in `TaskPools` other threads push between a worker's turns and stop the pool, and there is one worker.
- IoWorkers: the pushes on the queues between a read and the end of its event are the protocol's; `HandleEvent` returns the request it hands over.
- ReadEvents: the events of one request, without a stop in between; the drain loop closes on EPOLLIN.
