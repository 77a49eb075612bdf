/** The response's write cursor and the byte loop of `do_write`. */
module HttpResponses {

  import opened Reactor

  /** What one `write` gives: at most this many bytes, EAGAIN, or another error. */
  datatype WriteResult = Wrote(limit: nat) | Again | Failed

  /** The bytes one `write` takes from a non-empty span. */
  function Taken(limit: nat, left: nat): (n: nat)
    requires left > 0
    ensures 0 < n <= left
  {
    if limit == 0 then 1 else if limit <= left then limit else left
  }

  /** The kernel's answers; once they run out it takes a byte at a time. */
  function Answer(kernel: seq<WriteResult>): WriteResult {
    if kernel == [] then Wrote(1) else kernel[0]
  }

  function Later(kernel: seq<WriteResult>): seq<WriteResult> {
    if kernel == [] then [] else kernel[1..]
  }

  /** Where the cursor is when the byte loop stops, and why it stopped. */
  function Flushed(size: nat, pos: nat, kernel: seq<WriteResult>): (r: (nat, WriteOutcome))
    requires pos <= size
    ensures pos <= r.0 <= size
    ensures r.1 == WroteAll <==> r.0 == size
    decreases size - pos
  {
    if pos == size then (pos, WroteAll)
    else
      match Answer(kernel)
      case Again => (pos, WouldBlock)
      case Failed => (pos, WriteFailed)
      case Wrote(limit) => Flushed(size, pos + Taken(limit, size - pos), Later(kernel))
  }

  /** How many answers there are before the first that is no success. */
  function Successes(kernel: seq<WriteResult>): (i: nat)
    ensures i <= |kernel| && (i < |kernel| ==> kernel[i] == Again || kernel[i] == Failed)
    ensures forall j :: 0 <= j < i ==> kernel[j].Wrote?
  {
    if kernel == [] || !kernel[0].Wrote? then 0 else 1 + Successes(kernel[1..])
  }

  /** What these answers take if there is enough to send; each takes a byte at least. */
  function Offered(answers: seq<WriteResult>): nat
    requires forall j :: 0 <= j < |answers| ==> answers[j].Wrote?
  {
    if answers == [] then 0
    else (if answers[0].limit == 0 then 1 else answers[0].limit) + Offered(answers[1..])
  }

  /** The loop stops early exactly when an answer other than a success comes before
      the successes have taken all that is pending: at EAGAIN it would block, at any
      other error it has failed.  It has then sent what the successes took. */
  ghost predicate Stops(size: nat, pos: nat, kernel: seq<WriteResult>, next: nat, outcome: WriteOutcome)
    requires pos <= size
  {
    var i := Successes(kernel);
    var sent := Offered(kernel[..i]);
    if i < |kernel| && sent < size - pos then
      && next == pos + sent
      && (outcome == WouldBlock <==> kernel[i] == Again) && (outcome == WriteFailed <==> kernel[i] == Failed)
    else next == size && outcome == WroteAll
  }

  lemma {:induction false} FlushedMeaning(size: nat, pos: nat, kernel: seq<WriteResult>)
    requires pos <= size
    ensures Stops(size, pos, kernel, Flushed(size, pos, kernel).0, Flushed(size, pos, kernel).1)
    decreases size - pos
  {
    if pos < size && (kernel == [] || kernel[0].Wrote?) {
      var n := Taken(if kernel == [] then 1 else kernel[0].limit, size - pos);
      FlushedMeaning(size, pos + n, Later(kernel));
      if kernel != [] {
        var i := Successes(kernel);
        assert kernel[..i][0] == kernel[0] && kernel[..i][1..] == kernel[1..][..i - 1];
      }
    }
  }

  /** What several runs of the write path put on the wire, one after the other. */
  function OnTheWire(buffer: seq<char>, pos: nat, calls: seq<seq<WriteResult>>): seq<char>
    requires pos <= |buffer|
    decreases |calls|
  {
    if calls == [] then []
    else
      var next := Flushed(|buffer|, pos, calls[0]).0;
      buffer[pos..next] + OnTheWire(buffer, next, calls[1..])
  }

  function CursorAfter(size: nat, pos: nat, calls: seq<seq<WriteResult>>): (next: nat)
    requires pos <= size
    ensures pos <= next <= size
    decreases |calls|
  {
    if calls == [] then pos else CursorAfter(size, Flushed(size, pos, calls[0]).0, calls[1..])
  }

  /** Over any number of write events the wire carries the response's bytes in
      order, each once, up to the cursor. */
  lemma {:induction false} WireIsPrefix(buffer: seq<char>, pos: nat, calls: seq<seq<WriteResult>>)
    requires pos <= |buffer|
    ensures OnTheWire(buffer, pos, calls) == buffer[pos..CursorAfter(|buffer|, pos, calls)]
    decreases |calls|
  {
    if calls != [] {
      var next := Flushed(|buffer|, pos, calls[0]).0;
      WireIsPrefix(buffer, next, calls[1..]);
      var end := CursorAfter(|buffer|, next, calls[1..]);
      assert buffer[pos..next] + buffer[next..end] == buffer[pos..end];
    }
  }

  /** The run that reports completion has delivered the whole response. */
  lemma CompletionDeliversAll(buffer: seq<char>, calls: seq<seq<WriteResult>>)
    requires calls != []
    requires Flushed(|buffer|, CursorAfter(|buffer|, 0, calls[..|calls| - 1]), calls[|calls| - 1]).1 == WroteAll
    ensures OnTheWire(buffer, 0, calls) == buffer
  {
    var front, last := calls[..|calls| - 1], calls[|calls| - 1];
    assert calls == front + [last];
    CursorAppend(|buffer|, 0, front, last);
    WireIsPrefix(buffer, 0, calls);
    assert buffer[0..|buffer|] == buffer;
  }

  lemma {:induction false} CursorAppend(size: nat, pos: nat, calls: seq<seq<WriteResult>>, last: seq<WriteResult>)
    requires pos <= size
    ensures CursorAfter(size, pos, calls + [last]) == Flushed(size, CursorAfter(size, pos, calls), last).0
    decreases |calls|
  {
    if calls == [] {
      assert calls + [last] == [last] && [last][1..] == [];
    } else {
      assert (calls + [last])[1..] == calls[1..] + [last];
      CursorAppend(size, Flushed(size, pos, calls[0]).0, calls[1..], last);
    }
  }

  lemma SpanStep(buffer: seq<char>, start: nat, pos: nat, n: nat)
    requires start <= pos && pos + n <= |buffer|
    ensures buffer[start..pos] + buffer[pos..][..n] == buffer[start..pos + n]
  {
  }

  class ResponseBuffer {
    var buffer: seq<char>
    var readPos: nat
    var finalized: bool

    ghost predicate Valid()
      reads this
    {
      readPos <= |buffer|
    }

    constructor ()
      ensures Valid() && buffer == [] && readPos == 0 && !finalized
    {
      buffer, readPos, finalized := [], 0, false;
    }

    /** `set_body`, `set_blob` and `set_options`, given the formatted message: the
        first one wins. */
    method Set(message: seq<char>)
      requires Valid()
      modifies this`buffer, this`finalized
      ensures Valid() && finalized
      ensures buffer == if old(finalized) then old(buffer) else old(buffer) + message
    {
      if finalized {
        return;
      }
      buffer := buffer + message;
      finalized := true;
    }

    function AvailableSize(): nat
      reads this
    {
      if |buffer| > readPos then |buffer| - readPos else 0
    }

    /** What is still to be sent. */
    function Pending(): seq<char>
      reads this
    {
      if readPos >= |buffer| then [] else buffer[readPos..]
    }

    method UpdatePos(sent: nat)
      modifies this`readPos
      ensures readPos == old(readPos) + sent
    {
      readPos := readPos + sent;
    }

    /** The byte loop over the spans. */
    method WriteSpans(kernel: seq<WriteResult>) returns (outcome: WriteOutcome, sent: seq<char>)
      requires Valid()
      modifies this`readPos
      ensures Valid() && (readPos, outcome) == Flushed(|buffer|, old(readPos), kernel)
      ensures sent == buffer[old(readPos)..readPos]
      ensures sent + Pending() == old(Pending())
    {
      sent := [];
      var answers := kernel;
      while AvailableSize() > 0
        invariant old(readPos) <= readPos <= |buffer|
        invariant Flushed(|buffer|, readPos, answers) == Flushed(|buffer|, old(readPos), kernel)
        invariant sent == buffer[old(readPos)..readPos]
        decreases |buffer| - readPos
      {
        var span := Pending();
        match Answer(answers) {
          case Again => return WouldBlock, sent;
          case Failed => return WriteFailed, sent;
          case Wrote(limit) =>
            var n := Taken(limit, |span|);
            SpanStep(buffer, old(readPos), readPos, n);
            sent := sent + span[..n];
            UpdatePos(n);
        }
        answers := Later(answers);
      }
      outcome := WroteAll;
    }

    /** The write loop of `do_write`: `sent` is what the kernel took from the spans it was
        offered. */
    method Flush(kernel: seq<WriteResult>) returns (outcome: WriteOutcome, sent: seq<char>)
      requires Valid()
      modifies this`readPos
      ensures Valid() && (readPos, outcome) == Flushed(|buffer|, old(readPos), kernel)
      ensures Stops(|buffer|, old(readPos), kernel, readPos, outcome)
      ensures sent == buffer[old(readPos)..readPos]
      ensures sent + Pending() == old(Pending())
    {
      FlushedMeaning(|buffer|, readPos, kernel);
      outcome, sent := WriteSpans(kernel);
    }
  }
}
