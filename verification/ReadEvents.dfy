/** What the reactor does with the bytes of one request: reads until the kernel has
    no more, asks `eof`, and finalizes at the first yes. */
module ReadEvents {

  import opened Common
  import opened Text
  import opened RequestParsers
  import S = SocketBuffers

  /** One read event: what each successful `read` returned, and whether the last
      `read` returned 0. */
  datatype ReadEvent = ReadEvent(chunks: seq<string>, hangup: bool)

  datatype Reader = Reader(parsing: Parsing, shape: S.Shape)

  const FRESH_READER := Reader(FRESH, S.FRESH_SHAPE)

  /** Still reading, closed, or finalizing on these bytes. */
  datatype Outcome = Waiting(reader: Reader) | Closed | Finalizing(view: string)

  function ReadOne(r: Reader, chunk: string, limit: nat): Reader {
    Reader(Received(r.parsing, chunk), S.Advance(r.shape, |chunk|, limit))
  }

  /** The read loop; the buffer's exception closes the connection. */
  function ReadAll(r: Reader, chunks: seq<string>, limit: nat): Option<Reader>
    decreases |chunks|
  {
    if chunks == [] then Some(r)
    else if S.Overflows(r.shape, |chunks[0]|, limit) then None
    else ReadAll(ReadOne(r, chunks[0], limit), chunks[1..], limit)
  }

  /** `on_read`: `eof` is asked at a hang-up and once more after the loop. */
  function OnReadEvent(r: Reader, e: ReadEvent, limit: nat): Outcome {
    match ReadAll(r, e.chunks, limit)
    case None => Closed
    case Some(q) =>
      if e.hangup && !Complete(q.parsing) then Closed
      else
        var asked := if e.hangup then Asked(q.parsing) else q.parsing;
        if Complete(asked) then Finalizing(asked.view) else Waiting(q.(parsing := Asked(asked)))
  }

  /** The events of one request, up to the one that finalizes or closes. */
  function Serve(r: Reader, events: seq<ReadEvent>, limit: nat): Outcome
    decreases |events|
  {
    if events == [] then Waiting(r)
    else
      match OnReadEvent(r, events[0], limit)
      case Waiting(q) => Serve(q, events[1..], limit)
      case other => other
  }

  // --------------------------------------------------------- specification

  function Joined(chunks: seq<string>): string {
    if chunks == [] then "" else chunks[0] + Joined(chunks[1..])
  }

  /** Everything the events bring. */
  function Arrived(events: seq<ReadEvent>): string {
    if events == [] then "" else Joined(events[0].chunks) + Arrived(events[1..])
  }

  /** How much has arrived at the end of the first event that reaches byte `end`. */
  function FirstReaching(before: nat, events: seq<ReadEvent>, end: nat): Option<nat>
    decreases |events|
  {
    if events == [] then None
    else
      var n := before + |Joined(events[0].chunks)|;
      if n >= end then Some(n) else FirstReaching(n, events[1..], end)
  }

  predicate NoHangup(events: seq<ReadEvent>) {
    forall e :: e in events ==> !e.hangup
  }

  /** A request line and headers that `eof` accepts at once, ending at byte `end`. */
  predicate HeadEndsAt(full: string, end: nat) {
    Ready(full) && Spaced(full) && HeaderEnd(full) == Some(end)
  }

  // ------------------------------------------------------------ one event

  lemma {:induction false} ReadAllMeaning(r: Reader, chunks: seq<string>, limit: nat)
    requires Exact(r.parsing)
    ensures var q := ReadAll(r, chunks, limit);
            q.Some? ==>
              && q.value.parsing.view == r.parsing.view + Joined(chunks) && Exact(q.value.parsing)
              && q.value.parsing.verb == r.parsing.verb
    decreases |chunks|
  {
    if chunks == [] {
      assert r.parsing.view + "" == r.parsing.view;
    } else if !S.Overflows(r.shape, |chunks[0]|, limit) {
      ReceivedExact(r.parsing, chunks[0]);
      ReadAllMeaning(ReadOne(r, chunks[0], limit), chunks[1..], limit);
      assert r.parsing.view + chunks[0] + Joined(chunks[1..]) == r.parsing.view + (chunks[0] + Joined(chunks[1..]));
    }
  }

  lemma PrefixShort(view: string, full: string, end: nat)
    requires view <= full && HeadEndsAt(full, end) && |view| < end
    ensures !Ready(view) && HeaderEnd(view).None?
  {
    assert full == view + full[|view|..];
    if HeaderEnd(view).Some? {
      FactsAreStable(view, full[|view|..]);
      EndInside(view);
    }
  }

  lemma PrefixLong(view: string, full: string, end: nat)
    requires view <= full && HeadEndsAt(full, end) && |view| >= end
    ensures Ready(view) && Spaced(view)
  {
    HeaderOnly(full);
    assert view == full[..end] + view[end..];
    FactsAreStable(full[..end], view[end..]);
  }

  /** A prefix is complete exactly when it holds the head. */
  lemma PrefixComplete(p: Parsing, full: string, end: nat)
    requires Exact(p) && p.view <= full && HeadEndsAt(full, end)
    ensures |p.view| < end ==> !Complete(p) && !Ready(p.view) && HeaderEnd(p.view).None?
    ensures |p.view| >= end ==> Complete(p)
  {
    AskedExact(p);
    if |p.view| < end { PrefixShort(p.view, full, end); } else { PrefixLong(p.view, full, end); }
  }

  lemma EndInside(view: string)
    requires HeaderEnd(view).Some?
    ensures HeaderEnd(view).value <= |view|
  {
  }

  /** One event: the bytes it brings decide. */
  lemma EventMeaning(r: Reader, e: ReadEvent, limit: nat, full: string, end: nat)
    requires Exact(r.parsing) && HeadEndsAt(full, end) && r.parsing.view + Joined(e.chunks) <= full
    ensures var now := r.parsing.view + Joined(e.chunks);
            match OnReadEvent(r, e, limit)
            case Closed => ReadAll(r, e.chunks, limit).None? || (e.hangup && |now| < end)
            case Finalizing(view) => view == now && |now| >= end
            case Waiting(q) => q.parsing.view == now && Exact(q.parsing) && |now| < end
                               && ReadAll(r, e.chunks, limit).Some?
                               && q.shape == ReadAll(r, e.chunks, limit).value.shape
  {
    ReadAllMeaning(r, e.chunks, limit);
    if ReadAll(r, e.chunks, limit).Some? {
      var q := ReadAll(r, e.chunks, limit).value;
      AskedExact(q.parsing);
      PrefixComplete(q.parsing, full, end);
      AskedExact(Asked(q.parsing));
      PrefixComplete(Asked(q.parsing), full, end);
    }
  }

  // ------------------------------------------------------------- all events

  lemma Extends(before: string, here: string, rest: string, full: string)
    requires before + (here + rest) <= full
    ensures before + here <= full && before + here + rest <= full
    ensures full[..|before| + |here|] == before + here
  {
    assert before + here + rest == before + (here + rest);
  }

  /** One event in terms of how far it gets. */
  lemma EventReaches(r: Reader, e: ReadEvent, rest: string, all: string, limit: nat, full: string, end: nat)
    requires Exact(r.parsing) && HeadEndsAt(full, end)
    requires all == Joined(e.chunks) + rest && r.parsing.view + all <= full
    ensures var n, out := |r.parsing.view| + |Joined(e.chunks)|, OnReadEvent(r, e, limit);
            && n <= |full|
            && (out.Waiting? ==>
                  && n < end && Exact(out.reader.parsing) && |out.reader.parsing.view| == n
                  && out.reader.parsing.view + rest <= full)
            && (out.Finalizing? ==> n >= end && out == Finalizing(full[..n]))
  {
    Extends(r.parsing.view, Joined(e.chunks), rest, full);
    EventMeaning(r, e, limit, full, end);
  }

  /** Finalized on what has arrived when the head is there, waiting before that. */
  predicate Served(before: nat, events: seq<ReadEvent>, out: Outcome, full: string, end: nat) {
    match FirstReaching(before, events, end)
    case None => out.Waiting?
    case Some(n) => n <= |full| && out == Finalizing(full[..n])
  }

  lemma ServedLater(before: nat, events: seq<ReadEvent>, out: Outcome, full: string, end: nat, now: nat)
    requires events != [] && now == before + |Joined(events[0].chunks)| < end
    requires Served(now, events[1..], out, full, end)
    ensures Served(before, events, out, full, end)
  {
  }

  lemma ServedNow(before: nat, events: seq<ReadEvent>, out: Outcome, full: string, end: nat, now: nat)
    requires events != [] && end <= now == before + |Joined(events[0].chunks)| <= |full|
    requires out == Finalizing(full[..now])
    ensures Served(before, events, out, full, end)
  {
  }

  lemma ArrivedFirst(events: seq<ReadEvent>)
    requires events != []
    ensures Arrived(events) == Joined(events[0].chunks) + Arrived(events[1..])
  {
  }

  lemma ServeFirst(r: Reader, events: seq<ReadEvent>, limit: nat)
    requires events != []
    ensures var out := OnReadEvent(r, events[0], limit);
            Serve(r, events, limit) == if out.Waiting? then Serve(out.reader, events[1..], limit) else out
  {
  }

  lemma FirstServed(r: Reader, events: seq<ReadEvent>, limit: nat, full: string, end: nat)
    returns (next: Option<Reader>, now: nat)
    requires Exact(r.parsing) && HeadEndsAt(full, end) && r.parsing.view + Arrived(events) <= full
    requires events != [] && Serve(r, events, limit) != Closed
    ensures now == |r.parsing.view| + |Joined(events[0].chunks)| <= |full|
    ensures match next
            case None => now >= end && Serve(r, events, limit) == Finalizing(full[..now])
            case Some(q) =>
              && now < end && Exact(q.parsing) && |q.parsing.view| == now
              && q.parsing.view + Arrived(events[1..]) <= full
              && Serve(r, events, limit) == Serve(q, events[1..], limit)
  {
    now := |r.parsing.view| + |Joined(events[0].chunks)|;
    ArrivedFirst(events);
    EventReaches(r, events[0], Arrived(events[1..]), Arrived(events), limit, full, end);
    ServeFirst(r, events, limit);
    var out := OnReadEvent(r, events[0], limit);
    next := if out.Waiting? then Some(out.reader) else None;
  }

  /** Unless the connection is closed, the request is finalized on exactly the bytes
      that have arrived at the end of the first event that reaches the header end. */
  lemma {:induction false} ServeMeaning(r: Reader, events: seq<ReadEvent>, limit: nat, full: string, end: nat)
    requires Exact(r.parsing) && HeadEndsAt(full, end) && r.parsing.view + Arrived(events) <= full
    requires Serve(r, events, limit) != Closed
    ensures Served(|r.parsing.view|, events, Serve(r, events, limit), full, end)
    decreases |events|
  {
    if events != [] {
      var final := Serve(r, events, limit);
      var next, now := FirstServed(r, events, limit, full, end);
      match next
      case None =>
        ServedNow(|r.parsing.view|, events, final, full, end, now);
      case Some(q) =>
        ServeMeaning(q, events[1..], limit, full, end);
        ServedLater(|r.parsing.view|, events, final, full, end, now);
    }
  }

  // ------------------------------------------------------------ the buffer

  /** The kernel returns something, and at most the free space. */
  predicate ChunksFit(s: S.Shape, chunks: seq<string>, limit: nat)
    decreases |chunks|
  {
    chunks == []
    || (0 < |chunks[0]| <= s.size - s.pos
        && (S.Overflows(s, |chunks[0]|, limit) || ChunksFit(S.Advance(s, |chunks[0]|, limit), chunks[1..], limit)))
  }

  predicate EventsFit(r: Reader, events: seq<ReadEvent>, limit: nat)
    decreases |events|
  {
    events == []
    || (ChunksFit(r.shape, events[0].chunks, limit)
        && (OnReadEvent(r, events[0], limit).Waiting? ==>
              EventsFit(OnReadEvent(r, events[0], limit).reader, events[1..], limit)))
  }

  predicate Holds(r: Reader, limit: nat) {
    S.Stepped(r.shape, limit) && r.shape.pos == |r.parsing.view|
  }

  lemma {:induction false} SafeChunksPass(r: Reader, chunks: seq<string>, limit: nat)
    requires Holds(r, limit) && ChunksFit(r.shape, chunks, limit)
    requires S.Safe(|r.parsing.view| + |Joined(chunks)|, limit)
    ensures ReadAll(r, chunks, limit).Some? && Holds(ReadAll(r, chunks, limit).value, limit)
    decreases |chunks|
  {
    if chunks != [] {
      var n, rest := |chunks[0]|, |Joined(chunks[1..])|;
      S.SafeBelow(r.shape.pos + n, rest, limit);
      S.SafeCallPasses(r.shape, n, limit);
      S.AdvanceKeepsStepped(r.shape, n, limit);
      SafeChunksPass(ReadOne(r, chunks[0], limit), chunks[1..], limit);
    }
  }

  /** A client that does not hang up and stays within the safe total is never
      closed on while its request is read. */
  lemma {:induction false} SafeRequestsAreServed(r: Reader, events: seq<ReadEvent>, limit: nat, full: string, end: nat)
    requires Exact(r.parsing) && Holds(r, limit) && EventsFit(r, events, limit) && NoHangup(events)
    requires HeadEndsAt(full, end) && r.parsing.view + Arrived(events) <= full
    requires S.Safe(|r.parsing.view| + |Arrived(events)|, limit)
    ensures Serve(r, events, limit) != Closed
    decreases |events|
  {
    if events != [] {
      var chunks, rest := events[0].chunks, Arrived(events[1..]);
      assert events[0] in events && NoHangup(events[1..]);
      Extends(r.parsing.view, Joined(chunks), rest, full);
      S.SafeBelow(|r.parsing.view| + |Joined(chunks)|, |rest|, limit);
      SafeChunksPass(r, chunks, limit);
      ReadAllMeaning(r, chunks, limit);
      EventMeaning(r, events[0], limit, full, end);
      if OnReadEvent(r, events[0], limit).Waiting? {
        SafeRequestsAreServed(OnReadEvent(r, events[0], limit).reader, events[1..], limit, full, end);
      }
    }
  }

  // -------------------------------------------------- heads that never complete

  lemma NotReadyPrefix(view: string, full: string)
    requires view <= full && !Ready(full)
    ensures !Ready(view)
  {
    assert full == view + full[|view|..];
    if HeaderEnd(view).Some? { FactsAreStable(view, full[|view|..]); }
  }

  lemma NotReadyEvent(r: Reader, e: ReadEvent, rest: string, limit: nat, full: string)
    requires Exact(r.parsing) && !Ready(full) && r.parsing.view + (Joined(e.chunks) + rest) <= full
    ensures var out := OnReadEvent(r, e, limit);
            && !out.Finalizing?
            && (ReadAll(r, e.chunks, limit).Some? && !e.hangup ==> out.Waiting?)
            && (out.Waiting? ==>
                  && ReadAll(r, e.chunks, limit).Some? && Exact(out.reader.parsing)
                  && out.reader.parsing.view == r.parsing.view + Joined(e.chunks)
                  && out.reader.parsing.view + rest <= full
                  && out.reader.shape == ReadAll(r, e.chunks, limit).value.shape)
  {
    Extends(r.parsing.view, Joined(e.chunks), rest, full);
    ReadAllMeaning(r, e.chunks, limit);
    if ReadAll(r, e.chunks, limit).Some? {
      var q := ReadAll(r, e.chunks, limit).value;
      NotReadyPrefix(q.parsing.view, full);
      AskedExact(q.parsing);
      AskedExact(Asked(q.parsing));
    }
  }

  /** Bytes whose header block has no line behind the request line, or no request line,
      are never finalized, however many follow. */
  lemma {:induction false} NeverServed(r: Reader, events: seq<ReadEvent>, limit: nat, full: string)
    requires Exact(r.parsing) && !Ready(full) && r.parsing.view + Arrived(events) <= full
    ensures !Serve(r, events, limit).Finalizing?
    decreases |events|
  {
    if events != [] {
      ArrivedFirst(events);
      NotReadyEvent(r, events[0], Arrived(events[1..]), limit, full);
      ServeFirst(r, events, limit);
      var out := OnReadEvent(r, events[0], limit);
      if out.Waiting? { NeverServed(out.reader, events[1..], limit, full); }
    }
  }

  /** Within the safe total such a client, if it does not hang up, is left waiting. */
  lemma {:induction false} NeverServedWaits(r: Reader, events: seq<ReadEvent>, limit: nat, full: string)
    requires Exact(r.parsing) && !Ready(full) && r.parsing.view + Arrived(events) <= full
    requires Holds(r, limit) && EventsFit(r, events, limit) && NoHangup(events)
    requires S.Safe(|r.parsing.view| + |Arrived(events)|, limit)
    ensures Serve(r, events, limit).Waiting?
    decreases |events|
  {
    if events != [] {
      var chunks, rest := events[0].chunks, Arrived(events[1..]);
      assert events[0] in events && NoHangup(events[1..]);
      ArrivedFirst(events);
      S.SafeBelow(|r.parsing.view| + |Joined(chunks)|, |rest|, limit);
      SafeChunksPass(r, chunks, limit);
      NotReadyEvent(r, events[0], rest, limit, full);
      ServeFirst(r, events, limit);
      NeverServedWaits(OnReadEvent(r, events[0], limit).reader, events[1..], limit, full);
    }
  }

  /** A request line with nothing but the blank line behind it, or no line at all. */
  lemma NoHeaderLine(line: string, more: string)
    requires OneLine(line)
    ensures !Ready(line + BLANK_LINE + more)
  {
    var view := line + BLANK_LINE + more;
    NoBreakInside(line, BLANK_LINE, more);
    BlankStartsWithBreak(BLANK_LINE);
    assert view == line + CRLF + (BLANK_LINE[2..] + more);
    NoBreakInside(line, CRLF, BLANK_LINE[2..] + more);
  }

  /** A line end in front of the request line. */
  lemma LeadingBreak(more: string)
    ensures !Ready(CRLF + more)
  {
    var view := CRLF + more;
    assert view[0..2] == CRLF;
    FindIs(view, CRLF, 0);
  }

  // ------------------------------------------------ request lines without a space

  /** How much has arrived at the end of the event after the first one that reaches `end`. */
  function SecondReaching(before: nat, events: seq<ReadEvent>, end: nat): Option<nat>
    decreases |events|
  {
    if events == [] then None
    else
      var n := before + |Joined(events[0].chunks)|;
      if n < end then SecondReaching(n, events[1..], end)
      else if |events| == 1 then None
      else Some(n + |Joined(events[1].chunks)|)
  }

  predicate SpacelessHead(full: string, end: nat) {
    Ready(full) && !Spaced(full) && HeaderEnd(full) == Some(end)
  }

  lemma SpacelessPrefix(view: string, full: string, end: nat)
    requires view <= full && SpacelessHead(full, end)
    ensures |view| < end ==> !Ready(view)
    ensures |view| >= end ==> Ready(view) && !Spaced(view)
  {
    assert full == view + full[|view|..];
    if HeaderEnd(view).Some? {
      FactsAreStable(view, full[|view|..]);
      EndInside(view);
    }
    if |view| >= end {
      HeaderOnly(full);
      assert view == full[..end] + view[end..];
      FactsAreStable(full[..end], view[end..]);
    }
  }

  /** The first event that completes the head caches the method and gets a no, the
      one after it a yes. */
  lemma SpacelessEvent(r: Reader, e: ReadEvent, rest: string, limit: nat, full: string, end: nat)
    requires Exact(r.parsing) && SpacelessHead(full, end) && r.parsing.view + (Joined(e.chunks) + rest) <= full
    requires OnReadEvent(r, e, limit) != Closed
    ensures var now, out := r.parsing.view + Joined(e.chunks), OnReadEvent(r, e, limit);
            && now <= full && |now| <= |full| && full[..|now|] == now
            && if r.parsing.verb.Some? then out == Finalizing(now)
               else
                 && out.Waiting? && Exact(out.reader.parsing) && out.reader.parsing.view == now && now + rest <= full
                 && (out.reader.parsing.verb.Some? <==> |now| >= end)
  {
    Extends(r.parsing.view, Joined(e.chunks), rest, full);
    ReadAllMeaning(r, e.chunks, limit);
    var q := ReadAll(r, e.chunks, limit).value;
    SpacelessPrefix(q.parsing.view, full, end);
    AskedExact(q.parsing);
    AskedExact(Asked(q.parsing));
  }

  /** Waiting before the second event, then finalized on what has arrived. */
  predicate ServedLate(before: nat, events: seq<ReadEvent>, out: Outcome, full: string, end: nat) {
    match SecondReaching(before, events, end)
    case None => out.Waiting?
    case Some(n) => n <= |full| && out == Finalizing(full[..n])
  }

  lemma LateLater(before: nat, events: seq<ReadEvent>, out: Outcome, full: string, end: nat, now: nat)
    requires events != [] && now == before + |Joined(events[0].chunks)| < end
    requires ServedLate(now, events[1..], out, full, end)
    ensures ServedLate(before, events, out, full, end)
  {
  }

  lemma LateNow(before: nat, events: seq<ReadEvent>, out: Outcome, full: string, end: nat, now: nat)
    requires |events| > 1 && before + |Joined(events[0].chunks)| >= end
    requires now == before + |Joined(events[0].chunks)| + |Joined(events[1].chunks)| <= |full|
    requires out == Finalizing(full[..now])
    ensures ServedLate(before, events, out, full, end)
  {
  }

  lemma FirstLate(r: Reader, events: seq<ReadEvent>, limit: nat, full: string, end: nat)
    returns (next: Reader, now: nat)
    requires Exact(r.parsing) && r.parsing.verb.None? && SpacelessHead(full, end)
    requires events != [] && r.parsing.view + Arrived(events) <= full && Serve(r, events, limit) != Closed
    ensures now == |r.parsing.view| + |Joined(events[0].chunks)| == |next.parsing.view|
    ensures Exact(next.parsing) && (next.parsing.verb.Some? <==> now >= end)
    ensures next.parsing.view + Arrived(events[1..]) <= full
    ensures Serve(r, events, limit) == Serve(next, events[1..], limit)
  {
    ArrivedFirst(events);
    ServeFirst(r, events, limit);
    SpacelessEvent(r, events[0], Arrived(events[1..]), limit, full, end);
    next := OnReadEvent(r, events[0], limit).reader;
    now := |next.parsing.view|;
  }

  lemma SecondLate(r: Reader, events: seq<ReadEvent>, limit: nat, full: string, end: nat) returns (now: nat)
    requires Exact(r.parsing) && r.parsing.verb.Some? && SpacelessHead(full, end)
    requires events != [] && r.parsing.view + Arrived(events) <= full && Serve(r, events, limit) != Closed
    ensures now == |r.parsing.view| + |Joined(events[0].chunks)| <= |full|
    ensures Serve(r, events, limit) == Finalizing(full[..now])
  {
    ArrivedFirst(events);
    ServeFirst(r, events, limit);
    SpacelessEvent(r, events[0], Arrived(events[1..]), limit, full, end);
    now := |r.parsing.view| + |Joined(events[0].chunks)|;
  }

  lemma HeadInFirst(before: nat, events: seq<ReadEvent>, next: Reader, final: Outcome, limit: nat, full: string,
                    end: nat)
    requires events != [] && before + |Joined(events[0].chunks)| == |next.parsing.view| >= end
    requires Exact(next.parsing) && next.parsing.verb.Some? && SpacelessHead(full, end)
    requires next.parsing.view + Arrived(events[1..]) <= full
    requires final == Serve(next, events[1..], limit) && final != Closed
    ensures ServedLate(before, events, final, full, end)
  {
    if |events| == 1 {
      assert events[1..] == [];
    } else {
      var now := SecondLate(next, events[1..], limit, full, end);
      LateNow(before, events, final, full, end, now);
    }
  }

  /** A head whose request line has no space is finalized one read event late, on what
      has arrived by then. */
  lemma {:induction false} SpacelessServed(r: Reader, events: seq<ReadEvent>, limit: nat, full: string, end: nat)
    requires Exact(r.parsing) && r.parsing.verb.None? && SpacelessHead(full, end)
    requires r.parsing.view + Arrived(events) <= full && Serve(r, events, limit) != Closed
    ensures ServedLate(|r.parsing.view|, events, Serve(r, events, limit), full, end)
    decreases |events|
  {
    if events != [] {
      var final := Serve(r, events, limit);
      var next, now := FirstLate(r, events, limit, full, end);
      if now < end {
        SpacelessServed(next, events[1..], limit, full, end);
        LateLater(|r.parsing.view|, events, final, full, end, now);
      } else {
        HeadInFirst(|r.parsing.view|, events, next, final, limit, full, end);
      }
    }
  }

  /** And then it is rejected. */
  lemma SpacelessNeverAccepted(full: string, end: nat, n: nat, isJson: string -> bool)
    requires SpacelessHead(full, end) && end <= n <= |full|
    ensures Ready(full[..n]) && Finalized(full[..n], isJson).Err?
  {
    SpacelessPrefix(full[..n], full, end);
    SpacelessIsRejected(full[..n]);
  }
}
