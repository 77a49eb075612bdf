/** Sequences of w-bit digits as bit streams, most significant bit first, and the
    wrapping 32-bit accumulator the decoders collect them in. */
module BitStream {

  type BitSeq = seq<bool>

  function Pow2(n: nat): (p: nat)
    ensures p > 0
  {
    if n == 0 then 1 else 2 * Pow2(n - 1)
  }

  /** The low `w` bits of `d`. */
  function Bits(d: nat, w: nat): (b: BitSeq)
    ensures |b| == w
  {
    if w == 0 then [] else Bits(d / 2, w - 1) + [d % 2 == 1]
  }

  function Value(b: BitSeq): nat {
    if b == [] then 0 else 2 * Value(b[..|b| - 1]) + if b[|b| - 1] then 1 else 0
  }

  /** The concatenated bits of w-bit digits. */
  function Unpack(ds: seq<nat>, w: nat): BitSeq {
    if ds == [] then [] else Unpack(ds[..|ds| - 1], w) + Bits(ds[|ds| - 1], w)
  }

  /** The complete w-bit groups of a bit stream; what is left over is dropped. */
  function Pack(b: BitSeq, w: nat): seq<nat>
    requires w > 0
  {
    if |b| < w then [] else [Value(b[..w])] + Pack(b[w..], w)
  }

  function Zeros(n: nat): BitSeq {
    seq(n, _ => false)
  }

  predicate AreDigits(ds: seq<nat>, w: nat) {
    forall i :: 0 <= i < |ds| ==> ds[i] < Pow2(w)
  }

  // ------------------------------------------------------------- powers of two

  lemma Powers()
    ensures Pow2(0) == 1 && Pow2(1) == 2 && Pow2(2) == 4 && Pow2(3) == 8 && Pow2(4) == 16 && Pow2(5) == 32
    ensures Pow2(6) == 64 && Pow2(7) == 128 && Pow2(8) == 256 && Pow2(12) == 4096 && Pow2(16) == 65536
    ensures Pow2(18) == 262144 && Pow2(24) == 0x100_0000 && Pow2(32) == 0x1_0000_0000
  {
    assert Pow2(4) == 16;
    PowAdd(4, 4); PowAdd(8, 4); PowAdd(8, 8); PowAdd(16, 2); PowAdd(16, 8); PowAdd(16, 16);
  }

  lemma {:induction false} PowAdd(a: nat, b: nat)
    ensures Pow2(a + b) == Pow2(a) * Pow2(b)
  {
    if a != 0 { PowAdd(a - 1, b); }
  }

  // --------------------------------------------------------- values of streams

  lemma {:induction false} ValueBound(b: BitSeq)
    ensures Value(b) < Pow2(|b|)
  {
    if b != [] { ValueBound(b[..|b| - 1]); }
  }

  lemma {:induction false} ValueOfBits(d: nat, w: nat)
    requires d < Pow2(w)
    ensures Value(Bits(d, w)) == d
  {
    if w != 0 {
      ValueOfBits(d / 2, w - 1);
      assert Bits(d, w)[..w - 1] == Bits(d / 2, w - 1);
    }
  }

  lemma {:induction false} BitsOfValue(b: BitSeq)
    ensures Bits(Value(b), |b|) == b
  {
    if b != [] {
      BitsOfValue(b[..|b| - 1]);
      assert b == b[..|b| - 1] + [b[|b| - 1]];
    }
  }

  lemma {:induction false} ValueConcat(a: BitSeq, b: BitSeq)
    ensures Value(a + b) == Value(a) * Pow2(|b|) + Value(b)
  {
    if b == [] {
      assert a + b == a;
    } else {
      var front := b[..|b| - 1];
      assert (a + b)[..|a + b| - 1] == a + front;
      ValueConcat(a, front);
      assert 2 * (Value(a) * Pow2(|front|)) == Value(a) * (2 * Pow2(|front|));
    }
  }

  /** A prefix is a quotient, a suffix a remainder. */
  lemma ValueSplit(b: BitSeq, k: nat)
    requires k <= |b|
    ensures Value(b[..k]) == Value(b) / Pow2(|b| - k)
    ensures Value(b[k..]) == Value(b) % Pow2(|b| - k)
  {
    var hi, lo, p := b[..k], b[k..], Pow2(|b| - k);
    assert b == hi + lo;
    ValueConcat(hi, lo);
    ValueBound(lo);
    DivModUnique(Value(hi), p, Value(lo));
  }

  lemma DivModUnique(q: int, p: int, r: int)
    requires 0 <= r < p
    ensures (q * p + r) / p == q && (q * p + r) % p == r
  {
    var x := q * p + r;
    assert x == p * (x / p) + x % p;
    assert p * (x / p - q) == r - x % p;
    if x / p > q { MulMono(p, 1, x / p - q); }
    if x / p < q { MulMono(p, 1, q - x / p); }
  }

  lemma MulMono(p: int, a: int, b: int)
    requires p >= 0 && a <= b
    ensures p * a <= p * b
  {
  }

  // ---------------------------------------------------------- pack and unpack

  lemma {:induction false} UnpackLength(ds: seq<nat>, w: nat)
    ensures |Unpack(ds, w)| == |ds| * w
  {
    if ds != [] {
      UnpackLength(ds[..|ds| - 1], w);
      OneMore(|ds|, w);
    }
  }

  lemma OneMore(n: int, w: int)
    ensures (n - 1) * w + w == n * w
  {
  }

  /** A positive multiple is at least one multiple. */
  lemma WholeGroup(n: nat, w: nat)
    requires 0 < w && 0 < n && n % w == 0
    ensures n >= w && (n - w) % w == 0
  {
    if n < w { DivModUnique(0, w, n); }
    else { ModStep(n, w); }
  }

  lemma {:induction false} PackConcat(a: BitSeq, b: BitSeq, w: nat)
    requires w > 0 && |a| % w == 0
    ensures Pack(a + b, w) == Pack(a, w) + Pack(b, w)
    decreases |a|
  {
    if a == [] {
      assert a + b == b;
    } else {
      WholeGroup(|a|, w);
      assert (a + b)[..w] == a[..w] && (a + b)[w..] == a[w..] + b;
      PackConcat(a[w..], b, w);
    }
  }

  lemma ModStep(n: nat, w: nat)
    requires 0 < w <= n
    ensures (n - w) % w == n % w
  {
    var q, r := n / w, n % w;
    assert n == w * q + r;
    assert n - w == (q - 1) * w + r;
    DivModUnique(q - 1, w, r);
  }

  lemma MulMod(n: nat, w: nat)
    requires w > 0
    ensures (n * w) % w == 0
  {
    DivModUnique(n, w, 0);
  }

  /** Packing is the inverse of unpacking; a short tail does not matter. */
  lemma {:induction false} PackUnpack(ds: seq<nat>, w: nat, tail: BitSeq)
    requires w > 0 && |tail| < w && AreDigits(ds, w)
    ensures Pack(Unpack(ds, w) + tail, w) == ds
  {
    if ds == [] {
      assert Unpack(ds, w) + tail == tail;
    } else {
      var front, last := ds[..|ds| - 1], ds[|ds| - 1];
      PackUnpack(front, w, []);
      assert Unpack(front, w) + [] == Unpack(front, w);
      PackLast(front, last, w, tail);
      assert front + [last] == ds;
    }
  }

  lemma PackLast(front: seq<nat>, last: nat, w: nat, tail: BitSeq)
    requires w > 0 && |tail| < w && last < Pow2(w)
    ensures Pack(Unpack(front, w) + Bits(last, w) + tail, w) == Pack(Unpack(front, w), w) + [last]
  {
    WholeStream(front, w);
    ConcatAssoc(Unpack(front, w), Bits(last, w), tail);
    PackConcat(Unpack(front, w), Bits(last, w) + tail, w);
    PackOne(last, w, tail);
  }

  lemma WholeStream(ds: seq<nat>, w: nat)
    requires w > 0
    ensures |Unpack(ds, w)| % w == 0
  {
    UnpackLength(ds, w);
    MulMod(|ds|, w);
  }

  lemma PackOne(d: nat, w: nat, tail: BitSeq)
    requires w > 0 && |tail| < w && d < Pow2(w)
    ensures Pack(Bits(d, w) + tail, w) == [d]
  {
    ValueOfBits(d, w);
    var b := Bits(d, w) + tail;
    assert b[..w] == Bits(d, w) && b[w..] == tail;
  }

  lemma ConcatAssoc(a: BitSeq, b: BitSeq, c: BitSeq)
    ensures (a + b) + c == a + (b + c)
  {
  }

  lemma {:induction false} UnpackConcat(a: seq<nat>, b: seq<nat>, w: nat)
    ensures Unpack(a + b, w) == Unpack(a, w) + Unpack(b, w)
  {
    if b == [] {
      assert a + b == a;
    } else {
      var front, last := b[..|b| - 1], b[|b| - 1];
      assert (a + b)[..|a + b| - 1] == a + front;
      UnpackConcat(a, front, w);
      ConcatAssoc(Unpack(a, w), Unpack(front, w), Bits(last, w));
    }
  }

  lemma {:induction false} UnpackPack(b: BitSeq, w: nat)
    requires w > 0 && |b| % w == 0
    ensures Unpack(Pack(b, w), w) == b
    decreases |b|
  {
    if b != [] {
      WholeGroup(|b|, w);
      UnpackPack(b[w..], w);
      UnpackHead(b[..w], Pack(b[w..], w), w);
    }
  }

  lemma UnpackHead(head: BitSeq, rest: seq<nat>, w: nat)
    requires |head| == w
    ensures Unpack([Value(head)] + rest, w) == head + Unpack(rest, w)
  {
    UnpackConcat([Value(head)], rest, w);
    UnpackOne(Value(head), w);
    BitsOfValue(head);
  }

  lemma UnpackOne(d: nat, w: nat)
    ensures Unpack([d], w) == Bits(d, w)
  {
    assert [d][..0] == [] && Unpack([], w) == [];
  }

  lemma GroupsBelow(n: nat, w: nat)
    requires 0 < w <= n
    ensures (n - w) / w == n / w - 1
  {
    var q, r := n / w, n % w;
    assert n == w * q + r;
    assert n - w == (q - 1) * w + r;
    DivModUnique(q - 1, w, r);
  }

  lemma {:induction false} PackDigits(b: BitSeq, w: nat)
    requires w > 0
    ensures AreDigits(Pack(b, w), w)
    ensures |Pack(b, w)| == |b| / w
    decreases |b|
  {
    if |b| >= w {
      PackDigits(b[w..], w);
      ValueBound(b[..w]);
      GroupsBelow(|b|, w);
    } else {
      DivModUnique(0, w, |b|);
    }
  }

  /** Group `k` of w bits starts at bit `i`. */
  predicate Aligned(i: int, k: nat, w: nat) {
    if k == 0 then i == 0 else i >= w && Aligned(i - w, k - 1, w)
  }

  lemma {:induction false} AlignedAt(k: nat, w: nat)
    ensures Aligned(k * w, k, w)
  {
    if k > 0 {
      AlignedAt(k - 1, w);
      OneMore(k, w);
      MulMono(w, 0, k - 1);
    }
  }

  lemma PackHead(b: BitSeq, w: nat)
    requires 0 < w <= |b|
    ensures Pack(b, w) != [] && Pack(b, w)[0] == Value(b[0..0 + w])
  {
    assert b[0..w] == b[..w];
  }

  lemma SliceShift(b: BitSeq, w: nat, i: nat)
    requires w <= i && i + w <= |b|
    ensures b[w..][i - w..i - w + w] == b[i..i + w]
  {
  }

  lemma PackTail(b: BitSeq, w: nat, k: nat)
    requires 0 < w <= |b| && 0 < k <= |Pack(b[w..], w)|
    ensures k < |Pack(b, w)| && Pack(b, w)[k] == Pack(b[w..], w)[k - 1]
  {
  }

  lemma {:induction false} PackAt(b: BitSeq, w: nat, k: nat, i: nat)
    requires w > 0 && Aligned(i, k, w) && i + w <= |b|
    ensures k < |Pack(b, w)| && Pack(b, w)[k] == Value(b[i..i + w])
    decreases k
  {
    if k == 0 {
      PackHead(b, w);
    } else {
      PackAt(b[w..], w, k - 1, i - w);
      PackTail(b, w, k);
      SliceShift(b, w, i);
    }
  }

  /** Group `k` of a stream is a quotient of its value. */
  lemma GroupValue(b: BitSeq, w: nat, k: nat, i: nat)
    requires w > 0 && Aligned(i, k, w) && i + w <= |b|
    ensures k < |Pack(b, w)|
    ensures Pack(b, w)[k] == Value(b) / Pow2(|b| - i - w) % Pow2(w)
  {
    PackAt(b, w, k, i);
    SliceValue(b, i, w);
  }

  lemma SliceValue(b: BitSeq, i: nat, w: nat)
    requires i + w <= |b|
    ensures Value(b[i..i + w]) == Value(b) / Pow2(|b| - i - w) % Pow2(w)
  {
    ValueSplit(b, i + w);
    ValueSplit(b[..i + w], i);
    assert b[..i + w][i..] == b[i..i + w];
  }

  // ------------------------------------------------- the 32-bit accumulator

  /** Two's-complement reduction to a 32-bit signed int. */
  function Wrap32(x: int): int {
    (x + 0x8000_0000) % 0x1_0000_0000 - 0x8000_0000
  }

  lemma AddMultiple(x: int, k: int, p: int)
    requires p > 0
    ensures (x + k * p) % p == x % p
  {
    var q, r := x / p, x % p;
    assert x == q * p + r;
    assert x + k * p == (q + k) * p + r;
    DivModUnique(q + k, p, r);
  }

  lemma Assoc(a: int, b: int, c: int)
    ensures a * (b * c) == (a * b) * c
  {
  }

  lemma AddMultipleOf(x: int, k: int, m: int, p: int, n: int)
    requires p > 0 && n == m * p
    ensures (x + k * n) % p == x % p
  {
    Assoc(k, m, p);
    AddMultiple(x, k * m, p);
  }

  lemma WrapIsShift(x: int) returns (k: int)
    ensures Wrap32(x) == x + k * 0x1_0000_0000
  {
    k := -((x + 0x8000_0000) / 0x1_0000_0000);
  }

  lemma WrapLow(x: int, m: int, p: int)
    requires p > 0 && m * p == 0x1_0000_0000
    ensures Wrap32(x) % p == x % p
  {
    var k := WrapIsShift(x);
    AddMultipleOf(x, k, m, p, 0x1_0000_0000);
  }

  /** Wrapping does not disturb the low bits. */
  lemma WrapKeepsLow(x: int, k: nat)
    requires k <= 32
    ensures Wrap32(x) % Pow2(k) == x % Pow2(k)
  {
    Powers();
    PowAdd(32 - k, k);
    WrapLow(x, Pow2(32 - k), Pow2(k));
  }

  /** The accumulator knows the bits collected but not yet given out. */
  ghost predicate Holds(acc: int, pending: BitSeq) {
    acc % Pow2(|pending|) == Value(pending)
  }

  /** Appending `d` below `acc`, modulo the longer window. */
  lemma ShiftMod(acc: int, p: int, v: int, q: int, d: int)
    requires p > 0 && q > 0 && acc % p == v && 0 <= d < q
    ensures (acc * q + d) % (p * q) == v * q + d
  {
    var k := acc / p;
    assert acc == k * p + v;
    assert acc * q == k * (p * q) + v * q by { Assoc(k, p, q); assert (k * p + v) * q == (k * p) * q + v * q; }
    assert 0 <= v * q + d < p * q by { MulMono(q, v, p - 1); assert q * (p - 1) == p * q - q; assert 0 <= v * q; }
    DivModUnique(k, p * q, v * q + d);
  }

  /** Shifting a digit in appends its bits, wrap-around or not. */
  lemma ShiftIn(acc: int, pending: BitSeq, d: nat, w: nat)
    requires Holds(acc, pending) && d < Pow2(w) && |pending| + w <= 32
    ensures Holds(Wrap32(acc * Pow2(w) + d), pending + Bits(d, w))
  {
    ValueConcat(pending, Bits(d, w));
    ValueOfBits(d, w);
    PowAdd(|pending|, w);
    ShiftMod(acc, Pow2(|pending|), Value(pending), Pow2(w), d);
    WrapKeepsLow(acc * Pow2(w) + d, |pending| + w);
  }

  /** The byte above the low `p`, and what stays below it. */
  lemma TopByte(acc: int, p: int, v: int)
    requires p > 0 && acc % (256 * p) == v && v / p < 256
    ensures acc / p % 256 == v / p && acc % p == v % p
  {
    var k, hi, lo := acc / (256 * p), v / p, v % p;
    assert acc == (256 * p) * k + v && v == p * hi + lo && 0 <= hi by { assert 0 <= v; }
    assert acc == (k * 256 + hi) * p + lo by { assert (256 * p) * k == (k * 256) * p; }
    DivModUnique(k * 256 + hi, p, lo);
    DivModUnique(k, 256, hi);
  }

  /** The top eight pending bits, taken with an arithmetic shift and a mask. */
  lemma TakeByte(acc: int, pending: BitSeq)
    requires Holds(acc, pending) && |pending| >= 8
    ensures acc / Pow2(|pending| - 8) % 256 == Value(pending[..8])
    ensures Holds(acc, pending[8..])
  {
    Powers();
    PowAdd(8, |pending| - 8);
    ValueSplit(pending, 8);
    ValueBound(pending[..8]);
    TopByte(acc, Pow2(|pending| - 8), Value(pending));
  }

  /** The bytes given out so far and the pending bits make up the stream. */
  ghost predicate Decoding(ds: seq<nat>, w: nat, out: seq<nat>, pending: BitSeq) {
    |pending| < 8 && AreDigits(out, 8) && Unpack(ds, w) == Unpack(out, 8) + pending
  }

  lemma DecodingDone(ds: seq<nat>, w: nat, out: seq<nat>, pending: BitSeq)
    requires Decoding(ds, w, out, pending)
    ensures out == Pack(Unpack(ds, w), 8)
  {
    PackUnpack(out, 8, pending);
  }

  lemma StreamGrows(ds: seq<nat>, w: nat, out: seq<nat>, pending: BitSeq, d: nat)
    requires Decoding(ds, w, out, pending)
    ensures Unpack(ds + [d], w) == Unpack(out, 8) + (pending + Bits(d, w))
  {
    UnpackLast(ds, d, w);
    ConcatAssoc(Unpack(out, 8), pending, Bits(d, w));
  }

  /** One more digit, at most one more byte. */
  lemma DecodingStep(ds: seq<nat>, w: nat, out: seq<nat>, pending: BitSeq, d: nat, more: BitSeq)
    requires Decoding(ds, w, out, pending) && w <= 8 && more == pending + Bits(d, w)
    ensures |more| < 8 ==> Decoding(ds + [d], w, out, more)
    ensures |more| >= 8 ==> Decoding(ds + [d], w, out + [Value(more[..8])], more[8..])
  {
    StreamGrows(ds, w, out, pending, d);
    if |more| >= 8 {
      GiveOut(out, more);
      ValueBound(more[..8]);
    }
  }

  lemma UnpackLast(ds: seq<nat>, d: nat, w: nat)
    ensures Unpack(ds + [d], w) == Unpack(ds, w) + Bits(d, w)
  {
    assert (ds + [d])[..|ds|] == ds;
  }

  lemma AppendByte(ds: seq<nat>, x: nat)
    requires x < 256
    ensures Value(Unpack(ds + [x], 8)) == Value(Unpack(ds, 8)) * 256 + x
  {
    Powers();
    UnpackLast(ds, x, 8);
    ValueOfBits(x, 8);
    ValueConcat(Unpack(ds, 8), Bits(x, 8));
  }

  lemma {:induction false} ZerosValue(n: nat)
    ensures Value(Zeros(n)) == 0
  {
    if n > 0 {
      assert Zeros(n)[..n - 1] == Zeros(n - 1);
      ZerosValue(n - 1);
    }
  }

  lemma GiveOut(out: seq<nat>, more: BitSeq)
    requires |more| >= 8
    ensures Unpack(out + [Value(more[..8])], 8) + more[8..] == Unpack(out, 8) + more
  {
    UnpackLast(out, Value(more[..8]), 8);
    BitsOfValue(more[..8]);
    assert more == more[..8] + more[8..];
    ConcatAssoc(Unpack(out, 8), more[..8], more[8..]);
  }

  /** The low byte after an arithmetic shift to the right. */
  function ByteAt(x: int, n: nat): nat {
    x / Pow2(n) % 256
  }

  /** Where a decoder stands: bytes out, bits pending, accumulator knowing them. */
  ghost predicate Stage(ds: seq<nat>, w: nat, out: seq<nat>, acc: int, pending: BitSeq) {
    Decoding(ds, w, out, pending) && Holds(acc, pending)
  }

  /** One turn of a decoder loop: shift a digit into the accumulator and give out
      a byte as soon as eight bits are there. */
  lemma DigitStep(ds: seq<nat>, w: nat, base: nat, out: seq<nat>, acc: int, acc': int, pending: BitSeq, d: nat)
    returns (pending': BitSeq)
    requires Stage(ds, w, out, acc, pending)
    requires base == Pow2(w) && d < base && 0 < w <= 8 && acc' == Wrap32(acc * base + d)
    ensures |pending| + w < 8 ==>
              |pending'| == |pending| + w && Stage(ds + [d], w, out, acc', pending')
    ensures |pending| + w >= 8 ==>
              |pending'| == |pending| + w - 8
              && Stage(ds + [d], w, out + [ByteAt(acc', |pending| + w - 8)], acc', pending')
  {
    var more := pending + Bits(d, w);
    ShiftIn(acc, pending, d, w);
    DecodingStep(ds, w, out, pending, d, more);
    if |more| < 8 {
      pending' := more;
    } else {
      TakeByte(acc', more);
      pending' := more[8..];
    }
  }
}
