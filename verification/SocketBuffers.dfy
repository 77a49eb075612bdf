/** The growing receive buffer of a request and the read loop that fills it. */
module SocketBuffers {

  const CHUNK_SIZE: nat := 4096

  function Max(a: nat, b: nat): nat {
    if a >= b then a else b
  }

  function Min(a: nat, b: nat): nat {
    if a <= b then a else b
  }

  /** Sizes only: capacity, bytes written, bytes copied by all growths so far. */
  datatype Shape = Shape(size: nat, pos: nat, copied: nat)

  const FRESH_SHAPE := Shape(CHUNK_SIZE, 0, 0)

  /** More than three quarters full. */
  predicate Crowded(size: nat, pos: nat) {
    pos * 4 > size * 3
  }

  /** The effect of `update_pos(n)` on the sizes; a crowded buffer that cannot grow
      is the exception. */
  function Advance(s: Shape, n: nat, limit: nat): Shape {
    var t := s.(pos := s.pos + n);
    if n > 0 && Crowded(t.size, t.pos) && t.size < limit
    then t.(size := Min(t.size * 2, limit), copied := t.copied + t.size)
    else t
  }

  predicate Overflows(s: Shape, n: nat, limit: nat) {
    n > 0 && Crowded(s.size, s.pos + n) && s.size >= limit
  }

  /** What every run of legal calls keeps.  `limit` is MAX_REQUEST_SIZE. */
  predicate Sized(s: Shape, limit: nat) {
    && s.pos <= s.size <= Max(CHUNK_SIZE, limit)
    && CHUNK_SIZE <= s.size
    && (s.size < limit ==> s.copied + CHUNK_SIZE == s.size)
    && 3 * s.copied <= 8 * s.pos
    && (s.pos > 0 ==> 3 * s.copied < 8 * s.pos)
  }

  /** A legal call reports at most the free space. */
  lemma AdvanceKeepsSized(s: Shape, n: nat, limit: nat)
    requires Sized(s, limit) && n <= s.size - s.pos
    ensures Sized(Advance(s, n, limit), limit)
    ensures !Overflows(s, n, limit) && n > 0 ==> Advance(s, n, limit).pos < Advance(s, n, limit).size
  {
  }

  /** The sizes after a run of calls. */
  function AdvanceAll(s: Shape, ns: seq<nat>, limit: nat): Shape
    decreases |ns|
  {
    if ns == [] then s else AdvanceAll(Advance(s, ns[0], limit), ns[1..], limit)
  }

  /** Each call reports at most the free space, and none throws. */
  predicate LegalRun(s: Shape, ns: seq<nat>, limit: nat)
    decreases |ns|
  {
    ns == []
    || (ns[0] <= s.size - s.pos && !Overflows(s, ns[0], limit) && LegalRun(Advance(s, ns[0], limit), ns[1..], limit))
  }

  function Sum(ns: seq<nat>): nat {
    if ns == [] then 0 else ns[0] + Sum(ns[1..])
  }

  lemma {:induction false} RunKeepsSized(s: Shape, ns: seq<nat>, limit: nat)
    requires Sized(s, limit) && LegalRun(s, ns, limit)
    ensures Sized(AdvanceAll(s, ns, limit), limit) && AdvanceAll(s, ns, limit).pos == s.pos + Sum(ns)
    ensures s.pos < s.size ==> AdvanceAll(s, ns, limit).pos < AdvanceAll(s, ns, limit).size
    decreases |ns|
  {
    if ns != [] {
      AdvanceKeepsSized(s, ns[0], limit);
      RunKeepsSized(Advance(s, ns[0], limit), ns[1..], limit);
    }
  }

  /** Over any run of legal calls all growths together copy less than 8/3 of the
      bytes received, the size stays below the limit (or the first chunk), and
      there is always room for the next read. */
  lemma AmortisedGrowth(ns: seq<nat>, limit: nat)
    requires LegalRun(FRESH_SHAPE, ns, limit)
    ensures var s := AdvanceAll(FRESH_SHAPE, ns, limit);
            && s.pos == Sum(ns) && s.pos < s.size <= Max(CHUNK_SIZE, limit)
            && (Sum(ns) > 0 ==> 3 * s.copied < 8 * Sum(ns))
            && (Sum(ns) == 0 ==> s.copied == 0)
  {
    RunKeepsSized(FRESH_SHAPE, ns, limit);
  }

  // ------------------------------------------------------- when it overflows

  /** Each call up to the first that throws reports something, and at most the
      free space. */
  predicate Fits(s: Shape, ns: seq<nat>, limit: nat)
    decreases |ns|
  {
    ns == []
    || (0 < ns[0] <= s.size - s.pos && (Overflows(s, ns[0], limit) || Fits(Advance(s, ns[0], limit), ns[1..], limit)))
  }

  /** Some call throws. */
  predicate Throws(s: Shape, ns: seq<nat>, limit: nat)
    decreases |ns|
  {
    ns != [] && (Overflows(s, ns[0], limit) || Throws(Advance(s, ns[0], limit), ns[1..], limit))
  }

  /** A size the buffer passes through: the first chunk, doubled any number of times. */
  predicate IsStep(n: nat) {
    n == CHUNK_SIZE || (n > CHUNK_SIZE && n % 2 == 0 && IsStep(n / 2))
  }

  lemma {:induction false} StepUnique(a: nat, b: nat)
    requires IsStep(a) && IsStep(b) && a <= b < 2 * a
    ensures a == b
  {
    if a != CHUNK_SIZE { StepUnique(a / 2, b / 2); }
  }

  lemma {:induction false} StepsAreWords(n: nat)
    requires IsStep(n)
    ensures n % 4 == 0
  {
    if n != CHUNK_SIZE { StepsAreWords(n / 2); }
  }

  /** Three quarters of the largest buffer; one byte more if the last growth is by
      a single byte, because the call that grows does not throw. */
  predicate Safe(total: nat, limit: nat) {
    var most := Max(CHUNK_SIZE, limit);
    4 * total <= 3 * most || (4 * total == 3 * most + 1 && most > CHUNK_SIZE && IsStep(most - 1))
  }

  /** Sizes below the limit are steps; the last growth came when the last step was crowded. */
  predicate Stepped(s: Shape, limit: nat) {
    && Sized(s, limit)
    && (s.size < limit ==> IsStep(s.size))
    && (s.size >= limit && limit > CHUNK_SIZE && IsStep(limit - 1) ==> 4 * s.pos > 3 * (limit - 1))
  }

  lemma DoubledStep(n: nat)
    requires IsStep(n)
    ensures IsStep(2 * n)
  {
    assert 2 * n / 2 == n && 2 * n % 2 == 0;
  }

  /** A growth doubles, or reaches the limit from a crowded step. */
  lemma GrowthKeepsStepped(s: Shape, n: nat, limit: nat)
    requires Stepped(s, limit) && 0 < n <= s.size - s.pos && s.size < limit && Crowded(s.size, s.pos + n)
    ensures var size := Min(2 * s.size, limit);
            && (size < limit ==> IsStep(size))
            && (size >= limit && IsStep(limit - 1) ==> 4 * (s.pos + n) > 3 * (limit - 1))
  {
    if 2 * s.size < limit {
      DoubledStep(s.size);
    } else if IsStep(limit - 1) {
      StepUnique(s.size, limit - 1);
    }
  }

  lemma AdvanceKeepsStepped(s: Shape, n: nat, limit: nat)
    requires Stepped(s, limit) && n <= s.size - s.pos
    ensures Stepped(Advance(s, n, limit), limit)
  {
    AdvanceKeepsSized(s, n, limit);
    if s.size < limit && n > 0 && Crowded(s.size, s.pos + n) { GrowthKeepsStepped(s, n, limit); }
  }

  lemma SafeCallPasses(s: Shape, n: nat, limit: nat)
    requires Stepped(s, limit) && Safe(s.pos + n, limit)
    ensures !Overflows(s, n, limit)
  {
    var most := Max(CHUNK_SIZE, limit);
    if 4 * (s.pos + n) > 3 * most { StepsAreWords(most - 1); }
  }

  /** Less than a safe total is safe. */
  lemma SafeBelow(total: nat, more: nat, limit: nat)
    requires Safe(total + more, limit)
    ensures Safe(total, limit)
  {
  }

  lemma {:induction false} SafeNeverThrows(s: Shape, ns: seq<nat>, limit: nat)
    requires Stepped(s, limit) && Fits(s, ns, limit) && Safe(s.pos + Sum(ns), limit)
    ensures !Throws(s, ns, limit)
    decreases |ns|
  {
    if ns != [] {
      SafeBelow(s.pos + ns[0], Sum(ns[1..]), limit);
      SafeCallPasses(s, ns[0], limit);
      AdvanceKeepsStepped(s, ns[0], limit);
      SafeNeverThrows(Advance(s, ns[0], limit), ns[1..], limit);
    }
  }

  function Ones(n: nat): (ns: seq<nat>)
    ensures Sum(ns) == n
  {
    if n == 0 then [] else [1] + Ones(n - 1)
  }

  /** Filled byte by byte, the buffer is never more than just crowded. */
  predicate Tight(s: Shape, limit: nat) {
    && Sized(s, limit)
    && (s.size < limit ==> IsStep(s.size) && 4 * s.pos <= 3 * s.size)
    && (s.size >= limit ==> Safe(s.pos, limit))
  }

  lemma TightStep(s: Shape, limit: nat)
    requires Tight(s, limit) && s.pos < s.size && !Overflows(s, 1, limit)
    ensures Tight(Advance(s, 1, limit), limit) && Advance(s, 1, limit).pos < Advance(s, 1, limit).size
  {
    AdvanceKeepsSized(s, 1, limit);
    if s.size < limit && Crowded(s.size, s.pos + 1) { TightGrowth(s, limit); }
  }

  lemma TightGrowth(s: Shape, limit: nat)
    requires Tight(s, limit) && s.size < limit && Crowded(s.size, s.pos + 1)
    ensures var size := Min(2 * s.size, limit);
            if size < limit then IsStep(size) && 4 * (s.pos + 1) <= 3 * size else Safe(s.pos + 1, limit)
  {
    if 2 * s.size < limit { DoubledStep(s.size); }
  }

  lemma {:induction false} OnesThrow(s: Shape, n: nat, limit: nat)
    requires Tight(s, limit) && s.pos < s.size && !Safe(s.pos + n, limit)
    ensures Fits(s, Ones(n), limit) && Throws(s, Ones(n), limit)
    decreases n
  {
    if n > 0 {
      assert Ones(n)[0] == 1 && Ones(n)[1..] == Ones(n - 1);
      if !Overflows(s, 1, limit) {
        TightStep(s, limit);
        OnesThrow(Advance(s, 1, limit), n - 1, limit);
      }
    }
  }

  /** A cut of `total` bytes that is taken to the end, and one that is not. */
  predicate Taken(ns: seq<nat>, total: nat, limit: nat) {
    Sum(ns) == total && Fits(FRESH_SHAPE, ns, limit) && !Throws(FRESH_SHAPE, ns, limit)
  }

  predicate Refused(ns: seq<nat>, total: nat, limit: nat) {
    Sum(ns) == total && Fits(FRESH_SHAPE, ns, limit) && Throws(FRESH_SHAPE, ns, limit)
  }

  /** A request of `total` bytes is taken however it is cut into reads exactly when
      the total is safe; otherwise reading it byte by byte overflows. */
  lemma TakenForEveryCut(total: nat, limit: nat)
    ensures (forall ns: seq<nat> :: !Refused(ns, total, limit)) <==> Safe(total, limit)
  {
    if Safe(total, limit) {
      forall ns: seq<nat> ensures !Refused(ns, total, limit) {
        if Sum(ns) == total && Fits(FRESH_SHAPE, ns, limit) { SafeNeverThrows(FRESH_SHAPE, ns, limit); }
      }
    } else {
      OnesThrow(FRESH_SHAPE, total, limit);
      assert Refused(Ones(total), total, limit);
    }
  }

  /** Reads that fill the free space, the last one excepted. */
  function Fill(s: Shape, total: nat, limit: nat): (ns: seq<nat>)
    ensures Sum(ns) == total
    decreases total
  {
    var free := if s.pos < s.size then s.size - s.pos else total;
    if total == 0 then []
    else if total <= free then [total]
    else [free] + Fill(Advance(s, free, limit), total - free, limit)
  }

  lemma {:induction false} FillFits(s: Shape, total: nat, limit: nat)
    requires Sized(s, limit) && s.pos < s.size
    ensures Fits(s, Fill(s, total, limit), limit)
    decreases total
  {
    var free := s.size - s.pos;
    if 0 < total <= free {
      assert [total][1..] == [];
    } else if total > free {
      AdvanceKeepsSized(s, free, limit);
      if !Overflows(s, free, limit) { FillFits(Advance(s, free, limit), total - free, limit); }
      assert ([free] + Fill(Advance(s, free, limit), total - free, limit))[1..]
             == Fill(Advance(s, free, limit), total - free, limit);
    }
  }

  /** A step below the limit that holds this many bytes. */
  ghost predicate StepHolds(total: nat, limit: nat) {
    exists step: nat :: IsStep(step) && total <= step < limit
  }

  /** Up to a step below the limit, full reads never throw: a full buffer grows. */
  lemma {:induction false} FillStaysBelow(s: Shape, total: nat, limit: nat, step: nat)
    requires IsStep(s.size) && s.pos < s.size <= step < limit && IsStep(step) && s.pos + total <= step
    ensures !Throws(s, Fill(s, total, limit), limit)
    decreases total
  {
    var free := s.size - s.pos;
    if 0 < total <= free {
      assert [total][1..] == [];
    } else if total > free {
      if 2 * s.size > step { StepUnique(s.size, step); }
      DoubledStep(s.size);
      FillStaysBelow(Advance(s, free, limit), total - free, limit, step);
      assert ([free] + Fill(Advance(s, free, limit), total - free, limit))[1..]
             == Fill(Advance(s, free, limit), total - free, limit);
    }
  }

  predicate ThreeQuarters(total: nat, limit: nat) {
    4 * total <= 3 * Max(CHUNK_SIZE, limit)
  }

  /** What has been taken is within three quarters of the largest buffer, or within
      the step that was still to grow when the last byte came. */
  lemma {:induction false} TakenWithin(s: Shape, ns: seq<nat>, limit: nat)
    requires Stepped(s, limit) && Fits(s, ns, limit) && !Throws(s, ns, limit)
    requires ThreeQuarters(s.pos, limit) || StepHolds(s.pos, limit)
    ensures ThreeQuarters(s.pos + Sum(ns), limit) || StepHolds(s.pos + Sum(ns), limit)
    decreases |ns|
  {
    if ns != [] {
      AdvanceKeepsStepped(s, ns[0], limit);
      if s.size < limit { assert IsStep(s.size) && s.pos + ns[0] <= s.size < limit; }
      TakenWithin(Advance(s, ns[0], limit), ns[1..], limit);
    }
  }

  /** A request of `total` bytes is taken for some way of cutting it into reads
      exactly when it is within three quarters of the largest buffer or within a
      step below the limit. */
  lemma TakenForSomeCut(total: nat, limit: nat)
    ensures (exists ns: seq<nat> :: Taken(ns, total, limit)) <==> ThreeQuarters(total, limit) || StepHolds(total, limit)
  {
    if ns: seq<nat> :| Taken(ns, total, limit) { TakenWithin(FRESH_SHAPE, ns, limit); }
    if ThreeQuarters(total, limit) || StepHolds(total, limit) { FillIsTaken(total, limit); }
  }

  lemma FillIsTaken(total: nat, limit: nat)
    requires ThreeQuarters(total, limit) || StepHolds(total, limit)
    ensures Taken(Fill(FRESH_SHAPE, total, limit), total, limit)
  {
    FillFits(FRESH_SHAPE, total, limit);
    if ThreeQuarters(total, limit) {
      SafeNeverThrows(FRESH_SHAPE, Fill(FRESH_SHAPE, total, limit), limit);
    } else {
      var step: nat :| IsStep(step) && total <= step < limit;
      StepsStartAtChunk(step);
      FillStaysBelow(FRESH_SHAPE, total, limit, step);
    }
  }

  lemma {:induction false} StepsStartAtChunk(step: nat)
    requires IsStep(step)
    ensures CHUNK_SIZE <= step
  {
    if step != CHUNK_SIZE { StepsStartAtChunk(step / 2); }
  }

  /** One cut of this many bytes is taken and another refused. */
  ghost predicate CutMatters(total: nat, limit: nat) {
    (exists ns: seq<nat> :: Taken(ns, total, limit)) && (exists ns: seq<nat> :: Refused(ns, total, limit))
  }

  /** How a request is cut into reads decides exactly when it is more than safe and
      fits into a step below the limit. */
  lemma CutMattersExactly(total: nat, limit: nat)
    ensures CutMatters(total, limit) <==> !Safe(total, limit) && StepHolds(total, limit)
  {
    TakenForEveryCut(total, limit);
    TakenForSomeCut(total, limit);
  }

  /** At a limit that is itself a step the cut never decides. */
  lemma StepLimitIsExact(total: nat, limit: nat)
    requires IsStep(limit)
    ensures !CutMatters(total, limit)
  {
    CutMattersExactly(total, limit);
    if StepHolds(total, limit) {
      var step: nat :| IsStep(step) && total <= step < limit;
      if limit < 2 * step { StepUnique(step, limit); }
    }
  }

  // The default of MAX_REQUEST_SIZE, 5 MiB.
  const DEFAULT_LIMIT: nat := 5_242_880

  lemma DefaultSteps()
    ensures IsStep(4_194_304)
  {
    DoubledStep(4096);
    DoubledStep(8192);
    DoubledStep(16384);
    DoubledStep(32768);
    DoubledStep(65536);
    DoubledStep(131072);
    DoubledStep(262144);
    DoubledStep(524288);
    DoubledStep(1048576);
    DoubledStep(2097152);
  }

  lemma StepsBelowDefault(total: nat)
    ensures StepHolds(total, DEFAULT_LIMIT) <==> total <= 4_194_304
  {
    DefaultSteps();
    if StepHolds(total, DEFAULT_LIMIT) {
      var step: nat :| IsStep(step) && total <= step < DEFAULT_LIMIT;
      if step > 4_194_304 { StepUnique(4_194_304, step); }
    }
  }

  /** At the default limit every cut is taken up to 3.75 MiB, some cut up to 4 MiB,
      and none above that. */
  lemma CutMattersAtDefault(total: nat)
    ensures (forall ns: seq<nat> :: !Refused(ns, total, DEFAULT_LIMIT)) <==> total <= 3_932_160
    ensures (exists ns: seq<nat> :: Taken(ns, total, DEFAULT_LIMIT)) <==> total <= 4_194_304
  {
    StepsAreEven();
    StepsBelowDefault(total);
    TakenForEveryCut(total, DEFAULT_LIMIT);
    TakenForSomeCut(total, DEFAULT_LIMIT);
  }

  lemma StepsAreEven()
    ensures !IsStep(DEFAULT_LIMIT - 1)
  {
    assert (DEFAULT_LIMIT - 1) % 2 == 1;
  }

  /** Two cuts of 15500 bytes at a limit of 20480: one is taken, the other is not. */
  lemma CutDecides()
    ensures Taken([4000, 3000, 5000, 3500], 15500, 20480) && Refused([4000, 3000, 5000, 500, 3000], 15500, 20480)
  {
    var s1 := Advance(FRESH_SHAPE, 4000, 20480);
    var s2 := Advance(s1, 3000, 20480);
    var s3 := Advance(s2, 5000, 20480);
    assert s3.size == 16384 && s3.pos == 12000;
    CutTail(s3);
    assert [4000, 3000, 5000, 3500] == [4000] + ([3000] + ([5000] + [3500]));
    assert [4000, 3000, 5000, 500, 3000] == [4000] + ([3000] + ([5000] + [500, 3000]));
    Prepended(s2, 5000, [3500], 20480);
    Prepended(s1, 3000, [5000] + [3500], 20480);
    Prepended(FRESH_SHAPE, 4000, [3000] + ([5000] + [3500]), 20480);
    Prepended(s2, 5000, [500, 3000], 20480);
    Prepended(s1, 3000, [5000] + [500, 3000], 20480);
    Prepended(FRESH_SHAPE, 4000, [3000] + ([5000] + [500, 3000]), 20480);
  }

  lemma CutTail(s: Shape)
    requires s.size == 16384 && s.pos == 12000
    ensures Fits(s, [3500], 20480) && Fits(s, [500, 3000], 20480)
    ensures !Throws(s, [3500], 20480) && Throws(s, [500, 3000], 20480)
    ensures Sum([3500]) == 3500 == Sum([500, 3000])
  {
    assert [3500][1..] == [] && [500, 3000][1..] == [3000] && [3000][1..] == [];
  }

  lemma Prepended(s: Shape, n: nat, rest: seq<nat>, limit: nat)
    requires 0 < n <= s.size - s.pos && !Overflows(s, n, limit)
    ensures Fits(s, [n] + rest, limit) <==> Fits(Advance(s, n, limit), rest, limit)
    ensures Throws(s, [n] + rest, limit) <==> Throws(Advance(s, n, limit), rest, limit)
    ensures Sum([n] + rest) == n + Sum(rest)
    ensures Sum([n] + rest) == n + Sum(rest)
  {
    assert ([n] + rest)[1..] == rest;
  }

  class SocketBuffer {
    var data: array<char>
    var pos: nat
    ghost var copied: nat
    const limit: nat

    ghost function Dimensions(): Shape
      reads this
    {
      Shape(data.Length, pos, copied)
    }

    ghost predicate Valid()
      reads this
    {
      Sized(Dimensions(), limit)
    }

    /** The bytes received so far. */
    function View(): seq<char>
      requires pos <= data.Length
      reads this, data
    {
      data[..pos]
    }

    constructor (limit: nat)
      ensures Valid() && fresh(data) && this.limit == limit
      ensures Dimensions() == FRESH_SHAPE && View() == []
    {
      this.limit := limit;
      data := new char[CHUNK_SIZE](_ => 0 as char);
      pos := 0;
      copied := 0;
    }

    function AvailableSize(): nat
      requires pos <= data.Length
      reads this
    {
      data.Length - pos
    }

    /** The kernel's side of `read`: bytes into the free span. */
    method Fill(bytes: seq<char>)
      requires Valid() && |bytes| <= AvailableSize()
      modifies data
      ensures data[..pos] == old(data[..pos]) && data[pos..pos + |bytes|] == bytes
    {
      var i := 0;
      while i < |bytes|
        invariant i <= |bytes|
        invariant data[..pos] == old(data[..pos])
        invariant data[pos..pos + i] == bytes[..i]
      {
        data[pos + i] := bytes[i];
        i := i + 1;
      }
    }

    /** `m_buffer.resize`: a larger array with the old bytes in front. */
    method Resize(newSize: nat)
      requires newSize >= data.Length
      modifies this`data, this`copied
      ensures fresh(data) && data.Length == newSize && copied == old(copied) + old(data.Length)
      ensures data[..old(data.Length)] == old(data[..])
    {
      var before := data;
      var grown := new char[newSize](i requires 0 <= i < newSize reads before =>
        if i < before.Length then before[i] else 0 as char);
      copied := copied + data.Length;
      data := grown;
    }

    /** `update_pos`; `ok` is false when it throws. */
    method UpdatePos(n: int) returns (ok: bool)
      requires Valid() && n <= AvailableSize()
      modifies this`pos, this`data, this`copied
      ensures Valid() && (data == old(data) || fresh(data))
      ensures n <= 0 ==> ok && pos == old(pos) && data == old(data) && copied == old(copied)
      ensures n > 0 ==> Dimensions() == Advance(old(Dimensions()), n, limit)
      ensures n > 0 ==> (ok <==> !Overflows(old(Dimensions()), n, limit))
      ensures n > 0 ==> (ok <==> 4 * (old(pos) + n) <= 3 * old(data).Length || old(data).Length < limit)
      ensures n > 0 ==> data.Length == if 4 * (old(pos) + n) <= 3 * old(data).Length || old(data).Length >= limit
                                       then old(data).Length else Min(2 * old(data).Length, limit)
      ensures n > 0 ==> View() == old(data[..pos + n])
      ensures ok && n > 0 ==> AvailableSize() > 0
    {
      if n <= 0 {
        return true;
      }
      AdvanceKeepsSized(Dimensions(), n, limit);
      pos := pos + n;
      if pos * 4 > data.Length * 3 {
        if data.Length >= limit {
          return false;
        }
        Resize(Min(data.Length * 2, limit));
        assert data[..pos] == data[..old(data.Length)][..pos];
      }
      return true;
    }
  }

  /** One successful `read` and the `update_pos` that follows it. */
  method Receive(b: SocketBuffer, bytes: seq<char>) returns (ok: bool)
    requires b.Valid() && 0 < |bytes| <= b.AvailableSize()
    modifies b, b.data
    ensures b.Valid() && (b.data == old(b.data) || fresh(b.data))
    ensures b.View() == old(b.View()) + bytes
    ensures b.Dimensions() == Advance(old(b.Dimensions()), |bytes|, b.limit)
    ensures ok <==> !Overflows(old(b.Dimensions()), |bytes|, b.limit)
    ensures ok ==> b.AvailableSize() > 0
  {
    b.Fill(bytes);
    assert b.data[..b.pos + |bytes|] == b.data[..b.pos] + b.data[b.pos..b.pos + |bytes|];
    ok := b.UpdatePos(|bytes|);
  }

  /** How much one `read` returns: up to `wanted`, the free space and what is there. */
  function ReadSize(wanted: nat, free: nat, left: nat): (n: nat)
    requires free > 0 && left > 0
    ensures 0 < n <= free && n <= left
  {
    Min(Max(wanted, 1), Min(free, left))
  }

  lemma WireStep(before: seq<char>, wire: seq<char>, done: nat, n: nat)
    requires done + n <= |wire|
    ensures before + wire[..done] + wire[done..done + n] == before + wire[..done + n]
  {
  }

  datatype ReadResult = Drained | TooLarge

  /** The read loop over what the peer has sent; `sizes` says how much each `read`
      returns at most.  Every turn finds free space, so the branch for an empty
      span is never taken.  Up to three quarters of the largest buffer all bytes
      are taken whatever `sizes` says; `TakenForEveryCut` has the exact limit. */
  method ReadLoop(b: SocketBuffer, wire: seq<char>, sizes: seq<nat>) returns (r: ReadResult)
    requires b.Valid() && b.AvailableSize() > 0
    modifies b, b.data
    ensures b.Valid()
    ensures r == Drained ==> b.View() == old(b.View()) + wire && b.AvailableSize() > 0
    ensures r == TooLarge ==> exists k :: 0 < k <= |wire| && b.View() == old(b.View()) + wire[..k]
    ensures r == TooLarge ==> 4 * |b.View()| > 3 * Max(CHUNK_SIZE, b.limit)
    ensures 4 * (|old(b.View())| + |wire|) <= 3 * Max(CHUNK_SIZE, b.limit) ==> r == Drained
  {
    var done, turn := 0, 0;
    while done < |wire|
      invariant b.Valid() && b.AvailableSize() > 0 && done <= |wire|
      invariant b.data == old(b.data) || fresh(b.data)
      invariant b.View() == old(b.View()) + wire[..done]
      decreases |wire| - done
    {
      var n := ReadSize(if turn < |sizes| then sizes[turn] else 1, b.AvailableSize(), |wire| - done);
      var ok := Receive(b, wire[done..done + n]);
      WireStep(old(b.View()), wire, done, n);
      done := done + n;
      if !ok {
        return TooLarge;
      }
      turn := turn + 1;
    }
    assert wire[..done] == wire;
    return Drained;
  }
}
