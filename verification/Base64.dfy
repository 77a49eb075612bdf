/** The Base64 encoder and decoder of the AES-GCM helpers. */
module Base64 {

  import opened Common
  import opened BitStream
  import T = Text

  // -------------------------------------------------------------- alphabet

  function Symbol(d: nat): char
    requires d < 64
  {
    if d < 26 then 'A' + d as char
    else if d < 52 then 'a' + (d - 26) as char
    else if d < 62 then '0' + (d - 52) as char
    else if d == 62 then '+' else '/'
  }

  predicate IsSymbol(c: char) {
    'A' <= c <= 'Z' || 'a' <= c <= 'z' || '0' <= c <= '9' || c == '+' || c == '/'
  }

  /** The position of a character in the alphabet string. */
  function IndexOf(c: char): (d: nat)
    requires IsSymbol(c)
    ensures d < 64
  {
    if 'A' <= c <= 'Z' then c as int - 'A' as int
    else if 'a' <= c <= 'z' then c as int - 'a' as int + 26
    else if '0' <= c <= '9' then c as int - '0' as int + 52
    else if c == '+' then 62 else 63
  }

  lemma IndexOfSymbol(d: nat)
    requires d < 64
    ensures IsSymbol(Symbol(d)) && IndexOf(Symbol(d)) == d && Symbol(d) != '='
  {
  }

  // Table 1 of RFC 4648.
  const ALPHABET := T.UPPER + T.LOWER + T.DIGITS + "+/"

  lemma ListedAt(upper: string, lower: string, digits: string, d: nat)
    requires |upper| == 26 && |lower| == 26 && |digits| == 10 && d < 64
    ensures (upper + lower + digits + "+/")[d]
            == if d < 26 then upper[d] else if d < 52 then lower[d - 26] else if d < 62 then digits[d - 52]
               else if d == 62 then '+' else '/'
  {
  }

  lemma SymbolIsListed(d: nat)
    requires d < 64
    ensures Symbol(d) == ALPHABET[d]
  {
    ListedAt(T.UPPER, T.LOWER, T.DIGITS, d);
    if d < 26 { T.LettersInOrder(d); }
    else if d < 52 { T.LettersInOrder(d - 26); }
    else if d < 62 { T.DigitsInOrder(d - 52); }
  }

  lemma AlphabetChar(c: char)
    ensures IsSymbol(c) <==> c in ALPHABET
  {
    T.RunOfUpper(c);
    T.RunOfLower(c);
    T.RunOfDigits(c);
  }

  /** The alphabet of section 4 of RFC 4648, position by position, and nothing else. */
  lemma AlphabetMeaning(c: char)
    ensures IsSymbol(c) <==> c in ALPHABET
    ensures IsSymbol(c) ==> ALPHABET[IndexOf(c)] == c
    ensures forall d: nat :: d < 64 ==> Symbol(d) == ALPHABET[d] && IsSymbol(Symbol(d)) && IndexOf(Symbol(d)) == d
  {
    AlphabetChar(c);
    if IsSymbol(c) { SymbolIsListed(IndexOf(c)); }
    forall d: nat | d < 64 ensures Symbol(d) == ALPHABET[d] && IsSymbol(Symbol(d)) && IndexOf(Symbol(d)) == d {
      SymbolIsListed(d);
      IndexOfSymbol(d);
    }
  }

  predicate AllSymbols(s: string) {
    forall i :: 0 <= i < |s| ==> IsSymbol(s[i])
  }

  function Digits(s: string): (ds: seq<nat>)
    requires AllSymbols(s)
    ensures |ds| == |s|
  {
    if s == [] then [] else Digits(s[..|s| - 1]) + [IndexOf(s[|s| - 1])]
  }

  // ------------------------------------------------------------- encoding

  /** Zero bits that complete the last group of six of `n` bytes. */
  function ZerosFor(n: nat): nat {
    if n >= 3 then ZerosFor(n - 3) else if n == 0 then 0 else if n == 1 then 4 else 2
  }

  /** The stream of the bytes, with zero bits up to a full group of six. */
  function Padded(data: seq<nat>): BitSeq {
    Unpack(data, 8) + Zeros(ZerosFor(|data|))
  }

  function Text(ds: seq<nat>): string
    requires AreDigits(ds, 6)
  {
    assert Pow2(6) == 64;
    seq(|ds|, i requires 0 <= i < |ds| => Symbol(ds[i]))
  }

  function Sextets(data: seq<nat>): (ds: seq<nat>)
    ensures AreDigits(ds, 6)
  {
    PackDigits(Padded(data), 6);
    Pack(Padded(data), 6)
  }

  function Filler(n: nat): string {
    seq((4 - n % 4) % 4, _ => '=')
  }

  /** Section 4 of RFC 4648. */
  function EncodedBase64(data: seq<nat>): string {
    Text(Sextets(data)) + Filler(|Sextets(data)|)
  }

  lemma {:induction false} ZerosValues(n: nat)
    ensures ZerosFor(n) == if n % 3 == 0 then 0 else if n % 3 == 1 then 4 else 2
  {
    if n >= 3 { ZerosValues(n - 3); }
  }

  lemma WholeSextets(n: nat)
    requires n % 3 == 0
    ensures (8 * n) % 6 == 0 && (8 * n) / 6 % 4 == 0
  {
    var q := n / 3;
    assert 8 * n == 24 * q;
  }

  lemma PaddedWhole(a: seq<nat>)
    requires |a| % 3 == 0
    ensures Padded(a) == Unpack(a, 8) && |Padded(a)| % 6 == 0 && |Padded(a)| / 6 % 4 == 0
  {
    UnpackLength(a, 8);
    ZerosValues(|a|);
    WholeSextets(|a|);
  }

  lemma {:induction false} SameZeros(n: nat, m: nat)
    requires n % 3 == 0
    ensures ZerosFor(n + m) == ZerosFor(m)
    decreases n
  {
    if n > 0 { SameZeros(n - 3, m); }
  }

  lemma StreamConcat(a: seq<nat>, b: seq<nat>, zeros: BitSeq)
    ensures Unpack(a + b, 8) + zeros == Unpack(a, 8) + (Unpack(b, 8) + zeros)
  {
    UnpackConcat(a, b, 8);
    ConcatAssoc(Unpack(a, 8), Unpack(b, 8), zeros);
  }

  lemma PaddedConcat(a: seq<nat>, b: seq<nat>)
    requires |a| % 3 == 0
    ensures Padded(a + b) == Unpack(a, 8) + Padded(b)
  {
    var zeros := ZerosFor(|b|);
    PaddedIs(a + b, zeros) by { SameZeros(|a|, |b|); }
    PaddedIs(b, zeros);
    StreamConcat(a, b, Zeros(zeros));
  }

  lemma PaddedIs(data: seq<nat>, zeros: nat)
    requires zeros == ZerosFor(|data|)
    ensures Padded(data) == Unpack(data, 8) + Zeros(zeros)
  {
  }

  /** Whole groups of three bytes encode on their own. */
  lemma SextetsConcat(a: seq<nat>, b: seq<nat>)
    requires |a| % 3 == 0
    ensures Sextets(a + b) == Sextets(a) + Sextets(b) && |Sextets(a)| % 4 == 0
  {
    PaddedWhole(a);
    PaddedConcat(a, b);
    PackConcat(Padded(a), Padded(b), 6);
    PackDigits(Padded(a), 6);
  }

  lemma TextConcat(a: seq<nat>, b: seq<nat>)
    requires AreDigits(a, 6) && AreDigits(b, 6)
    ensures AreDigits(a + b, 6) && Text(a + b) == Text(a) + Text(b)
  {
  }

  lemma EncodeConcat(a: seq<nat>, b: seq<nat>)
    requires |a| % 3 == 0
    ensures EncodedBase64(a + b) == EncodedBase64(a) + EncodedBase64(b)
  {
    SextetsConcat(a, b);
    TextConcat(Sextets(a), Sextets(b));
    var ta, tb, f := Text(Sextets(a)), Text(Sextets(b)), Filler(|Sextets(b)|);
    assert Filler(|Sextets(a)|) == [] && Filler(|Sextets(a + b)|) == f;
    assert (ta + tb) + f == (ta + []) + (tb + f);
  }

  lemma OneValue(x: nat)
    requires x < 256
    ensures |Unpack([x], 8)| == 8 && Value(Unpack([x], 8)) == x
  {
    Powers();
    UnpackOne(x, 8);
    ValueOfBits(x, 8);
  }

  lemma FourGroups(b: BitSeq)
    requires |b| == 24
    ensures var v := Value(b);
            Pack(b, 6) == [v / 262144 % 64, v / 4096 % 64, v / 64 % 64, v % 64]
  {
    Powers();
    PackDigits(b, 6);
    GroupValue(b, 6, 0, 0); GroupValue(b, 6, 1, 6); GroupValue(b, 6, 2, 12); GroupValue(b, 6, 3, 18);
  }

  lemma ThreeGroups(b: BitSeq)
    requires |b| == 18
    ensures var v := Value(b);
            Pack(b, 6) == [v / 4096 % 64, v / 64 % 64, v % 64]
  {
    Powers();
    PackDigits(b, 6);
    GroupValue(b, 6, 0, 0); GroupValue(b, 6, 1, 6); GroupValue(b, 6, 2, 12);
  }

  lemma TwoGroups(b: BitSeq)
    requires |b| == 12
    ensures var v := Value(b);
            Pack(b, 6) == [v / 64 % 64, v % 64]
  {
    Powers();
    PackDigits(b, 6);
    GroupValue(b, 6, 0, 0); GroupValue(b, 6, 1, 6);
  }

  lemma PaddedValue(group: seq<nat>, zeros: nat)
    requires zeros == ZerosFor(|group|)
    ensures |Padded(group)| == 8 * |group| + zeros
    ensures Value(Padded(group)) == Value(Unpack(group, 8)) * Pow2(zeros)
  {
    UnpackLength(group, 8);
    ValueConcat(Unpack(group, 8), Zeros(zeros));
    ZerosValue(zeros);
  }

  lemma TwoBytes(x: nat, y: nat)
    requires x < 256 && y < 256
    ensures Value(Unpack([x, y], 8)) == x * 256 + y
  {
    OneValue(x);
    AppendByte([x], y);
    assert [x] + [y] == [x, y];
  }

  lemma ThreeBytes(x: nat, y: nat, z: nat)
    requires x < 256 && y < 256 && z < 256
    ensures Value(Unpack([x, y, z], 8)) == x * 65536 + y * 256 + z
  {
    TwoBytes(x, y);
    AppendByte([x, y], z);
    assert [x, y] + [z] == [x, y, z];
  }

  lemma PaddedOf3(x: nat, y: nat, z: nat)
    requires x < 256 && y < 256 && z < 256
    ensures |Padded([x, y, z])| == 24 && Value(Padded([x, y, z])) == x * 65536 + y * 256 + z
  {
    ThreeBytes(x, y, z);
    PaddedValue([x, y, z], 0);
  }

  lemma PaddedOf2(x: nat, y: nat)
    requires x < 256 && y < 256
    ensures |Padded([x, y])| == 18 && 64 * Value(Padded([x, y])) == x * 65536 + y * 256
  {
    Powers();
    TwoBytes(x, y);
    PaddedValue([x, y], 2);
  }

  lemma PaddedOf1(x: nat)
    requires x < 256
    ensures |Padded([x])| == 12 && 4096 * Value(Padded([x])) == x * 65536
  {
    Powers();
    OneValue(x);
    PaddedValue([x], 4);
  }

  lemma Cancel64(v: nat)
    ensures 64 * v / 262144 == v / 4096 && 64 * v / 4096 == v / 64 && 64 * v / 64 == v
  {
  }

  lemma Cancel4096(v: nat)
    ensures 4096 * v / 262144 == v / 64 && 4096 * v / 4096 == v
  {
  }

  /** The sextets of a group of one, two or three bytes, cut from a 24-bit word. */
  lemma SextetsOf3(x: nat, y: nat, z: nat, w: nat)
    requires x < 256 && y < 256 && z < 256 && w == x * 65536 + y * 256 + z
    ensures Sextets([x, y, z]) == [w / 262144 % 64, w / 4096 % 64, w / 64 % 64, w % 64]
  {
    PaddedOf3(x, y, z);
    FourGroups(Padded([x, y, z]));
  }

  lemma SextetsOf2(x: nat, y: nat, w: nat)
    requires x < 256 && y < 256 && w == x * 65536 + y * 256
    ensures Sextets([x, y]) == [w / 262144 % 64, w / 4096 % 64, w / 64 % 64]
  {
    PaddedOf2(x, y);
    Cancel64(Value(Padded([x, y])));
    ThreeGroups(Padded([x, y]));
  }

  lemma SextetsOf1(x: nat, w: nat)
    requires x < 256 && w == x * 65536
    ensures Sextets([x]) == [w / 262144 % 64, w / 4096 % 64]
  {
    PaddedOf1(x);
    Cancel4096(Value(Padded([x])));
    TwoGroups(Padded([x]));
  }

  /** What one turn of the encoder loop appends for a group of up to three bytes. */
  function GroupText(word: nat, n: nat): string {
    [Symbol(word / 262144 % 64), Symbol(word / 4096 % 64)]
    + [if n > 1 then Symbol(word / 64 % 64) else '=']
    + [if n > 2 then Symbol(word % 64) else '=']
  }

  lemma EncodeSextets(group: seq<nat>, a: nat, b: nat, c: nat, d: nat)
    requires a < 64 && b < 64 && c < 64 && d < 64 && 1 <= |group| <= 3
    requires Sextets(group) == [a, b, c, d][..|group| + 1]
    ensures EncodedBase64(group) == [Symbol(a), Symbol(b)] + [if |group| > 1 then Symbol(c) else '=']
                                    + [if |group| > 2 then Symbol(d) else '=']
  {
  }

  lemma EncodeGroup(group: seq<nat>, word: nat)
    requires 1 <= |group| <= 3 && AreDigits(group, 8)
    requires word == group[0] * 65536 + (if |group| > 1 then group[1] * 256 else 0)
                     + (if |group| > 2 then group[2] else 0)
    ensures EncodedBase64(group) == GroupText(word, |group|)
  {
    Powers();
    assert Sextets(group) == [word / 262144 % 64, word / 4096 % 64, word / 64 % 64, word % 64][..|group| + 1] by {
      if |group| == 1 {
        assert group == [group[0]];
        SextetsOf1(group[0], word);
      } else if |group| == 2 {
        assert group == [group[0], group[1]];
        SextetsOf2(group[0], group[1], word);
      } else {
        assert group == [group[0], group[1], group[2]];
        SextetsOf3(group[0], group[1], group[2], word);
      }
    }
    EncodeSextets(group, word / 262144 % 64, word / 4096 % 64, word / 64 % 64, word % 64);
  }

  function GroupEnd(n: nat, i: nat): nat {
    if i + 3 <= n then i + 3 else n
  }

  /** The 24-bit word of the group at `i`. */
  function Word(data: seq<nat>, i: nat): nat
    requires i < |data|
  {
    data[i] * 65536 + (if i + 1 < |data| then data[i + 1] * 256 else 0) + (if i + 2 < |data| then data[i + 2] else 0)
  }

  lemma WordOfGroup(data: seq<nat>, i: nat)
    requires i < |data|
    ensures var group := data[i..GroupEnd(|data|, i)];
            Word(data, i) == group[0] * 65536 + (if |group| > 1 then group[1] * 256 else 0)
                             + (if |group| > 2 then group[2] else 0)
  {
  }

  lemma EncodeStep(data: seq<nat>, i: nat)
    requires i < |data| && i % 3 == 0 && AreDigits(data, 8)
    ensures var end := GroupEnd(|data|, i);
            EncodedBase64(data[..end]) == EncodedBase64(data[..i]) + GroupText(Word(data, i), end - i)
  {
    var end := GroupEnd(|data|, i);
    var group := data[i..end];
    WordOfGroup(data, i);
    EncodeGroup(group, Word(data, i));
    EncodeConcat(data[..i], group);
    assert data[..i] + group == data[..end];
  }

  /** One turn of the encoder loop: up to three bytes into a 24-bit word. */
  method EncodeThree(data: seq<nat>, i: nat) returns (four: string)
    requires i < |data|
    ensures four == GroupText(Word(data, i), GroupEnd(|data|, i) - i)
  {
    var b := data[i] * 65536;
    if i + 1 < |data| { b := b + data[i + 1] * 256; }
    if i + 2 < |data| { b := b + data[i + 2]; }
    four := [Symbol(b / 262144 % 64), Symbol(b / 4096 % 64)];
    four := four + [if i + 1 < |data| then Symbol(b / 64 % 64) else '='];
    four := four + [if i + 2 < |data| then Symbol(b % 64) else '='];
  }

  lemma NextMultiple(i: nat)
    requires i % 3 == 0
    ensures (i + 3) % 3 == 0
  {
  }

  /** The encoder loop. */
  method Base64Encode(data: seq<nat>) returns (out: string)
    requires AreDigits(data, 8)
    ensures out == EncodedBase64(data)
  {
    out := [];
    var i := 0;
    ghost var done := 0;
    while i < |data|
      invariant i % 3 == 0
      invariant done == if i <= |data| then i else |data|
      invariant out == EncodedBase64(data[..done])
    {
      var four := EncodeThree(data, i);
      EncodeStep(data, i);
      NextMultiple(i);
      out := out + four;
      done := GroupEnd(|data|, i);
      i := i + 3;
    }
    assert data[..|data|] == data;
  }

  // ------------------------------------------------------------- decoding

  /** Where the decoder stops: at the first `=`, or at the end. */
  function Stop(text: string): (n: nat)
    ensures n <= |text|
    ensures forall i :: 0 <= i < n ==> text[i] != '='
    ensures n < |text| ==> text[n] == '='
  {
    if text == [] || text[0] == '=' then 0 else 1 + Stop(text[1..])
  }

  /** The complete bytes of the concatenated sextets in front of the first `=`. */
  function DecodedBase64(text: string): Result<seq<nat>> {
    var symbols := text[..Stop(text)];
    if AllSymbols(symbols) then Ok(Pack(Unpack(Digits(symbols), 6), 8))
    else Err("Invalid base64 character")
  }

  lemma DigitsGrow(text: string, i: nat)
    requires i < |text| && AllSymbols(text[..i]) && IsSymbol(text[i])
    ensures AllSymbols(text[..i + 1]) && Digits(text[..i + 1]) == Digits(text[..i]) + [IndexOf(text[i])]
  {
    assert text[..i + 1][..i] == text[..i];
  }

  /** Symbols up to `i` mean that the decoder has not stopped before it. */
  lemma StopFrom(text: string, i: nat)
    requires i <= |text| && AllSymbols(text[..i])
    ensures i <= Stop(text)
    ensures i == |text| || text[i] == '=' ==> Stop(text) == i
  {
    assert forall j :: 0 <= j < i ==> text[j] == text[..i][j] && IsSymbol(text[j]);
  }

  lemma BadSymbol(text: string, i: nat)
    requires i < |text| && AllSymbols(text[..i]) && text[i] != '=' && !IsSymbol(text[i])
    ensures DecodedBase64(text) == Err("Invalid base64 character")
  {
    StopFrom(text, i);
    assert text[..Stop(text)][i] == text[i];
  }

  lemma AllRead(text: string, i: nat, ds: seq<nat>)
    requires i <= |text| && AllSymbols(text[..i]) && ds == Digits(text[..i]) && (i == |text| || text[i] == '=')
    ensures DecodedBase64(text) == Ok(Pack(Unpack(ds, 6), 8))
  {
    StopFrom(text, i);
  }

  /** Where the decoder loop stands after `i` characters. */
  ghost predicate Scanned(text: string, i: nat, out: seq<nat>, val: int, bitCount: int, pending: BitSeq) {
    && i <= |text| && AllSymbols(text[..i])
    && Stage(Digits(text[..i]), 6, out, val, pending)
    && bitCount + 8 == |pending|
  }

  lemma ScanTurn(text: string, i: nat, out: seq<nat>, val: int, val': int, bitCount: int, pending: BitSeq)
    returns (pending': BitSeq)
    requires Scanned(text, i, out, val, bitCount, pending) && i < |text| && IsSymbol(text[i])
    requires val' == Wrap32(val * 64 + IndexOf(text[i]))
    ensures bitCount + 6 < 0 ==> Scanned(text, i + 1, out, val', bitCount + 6, pending')
    ensures bitCount + 6 >= 0 ==> Scanned(text, i + 1, out + [ByteAt(val', bitCount + 6)], val', bitCount - 2, pending')
  {
    assert Pow2(6) == 64;
    pending' := DigitStep(Digits(text[..i]), 6, 64, out, val, val', pending, IndexOf(text[i]));
    DigitsGrow(text, i);
  }

  /** One turn of the decoder loop: six more bits into `val`, a 32-bit int that is
      never masked and wraps, and a byte out as soon as there are eight. */
  method TakeSymbol(ghost text: string, ghost i: nat, c: char, out: seq<nat>, val: int, bitCount: int,
                    ghost pending: BitSeq)
    returns (out': seq<nat>, val': int, bitCount': int, ghost pending': BitSeq)
    requires Scanned(text, i, out, val, bitCount, pending) && i < |text| && text[i] == c && IsSymbol(c)
    ensures Scanned(text, i + 1, out', val', bitCount', pending')
    ensures bitCount' == if bitCount + 6 >= 0 then bitCount - 2 else bitCount + 6
    ensures |out'| == |out| + if bitCount + 6 >= 0 then 1 else 0
  {
    out', val', bitCount' := out, Wrap32(val * 64 + IndexOf(c)), bitCount + 6;
    pending' := ScanTurn(text, i, out, val, val', bitCount, pending);
    if bitCount' >= 0 {
      out' := out + [ByteAt(val', bitCount')];
      bitCount' := bitCount' - 8;
    }
  }

  /** The decoder loop. */
  method Base64Decode(text: string) returns (r: Result<seq<nat>>)
    ensures r == DecodedBase64(text)
  {
    var out: seq<nat> := [];
    var val, bitCount := 0, -8;
    ghost var pending: BitSeq := [];
    var i := 0;
    while i < |text|
      invariant Scanned(text, i, out, val, bitCount, pending)
    {
      var c := text[i];
      if c == '=' {
        break;
      }
      if !IsSymbol(c) {
        BadSymbol(text, i);
        return Err("Invalid base64 character");
      }
      out, val, bitCount, pending := TakeSymbol(text, i, c, out, val, bitCount, pending);
      i := i + 1;
    }
    AllRead(text, i, Digits(text[..i]));
    DecodingDone(Digits(text[..i]), 6, out, pending);
    return Ok(out);
  }

  // ----------------------------------------------------------- round trip

  lemma {:induction false} StopAtFiller(body: string, filler: string)
    requires forall i :: 0 <= i < |body| ==> body[i] != '='
    requires forall i :: 0 <= i < |filler| ==> filler[i] == '='
    ensures Stop(body + filler) == |body|
  {
    if body == "" {
      assert body + filler == filler;
    } else {
      assert (body + filler)[1..] == body[1..] + filler;
      StopAtFiller(body[1..], filler);
    }
  }

  lemma PaddedSextets(n: nat)
    ensures (8 * n + ZerosFor(n)) % 6 == 0
  {
    ZerosValues(n);
    var q, r := n / 3, n % 3;
    var k := 4 * q + if r == 0 then 0 else if r == 1 then 2 else 3;
    assert 8 * n + ZerosFor(n) == k * 6;
    MulMod(k, 6);
  }

  lemma {:induction false} DigitAt(s: string, i: nat)
    requires AllSymbols(s) && i < |s|
    ensures Digits(s)[i] == IndexOf(s[i])
  {
    if i < |s| - 1 { DigitAt(s[..|s| - 1], i); }
  }

  lemma DigitsOfText(ds: seq<nat>)
    requires AreDigits(ds, 6)
    ensures AllSymbols(Text(ds)) && Digits(Text(ds)) == ds
    ensures forall i :: 0 <= i < |ds| ==> Text(ds)[i] != '='
  {
    Powers();
    forall i | 0 <= i < |ds| ensures IsSymbol(Text(ds)[i]) && IndexOf(Text(ds)[i]) == ds[i] && Text(ds)[i] != '=' {
      IndexOfSymbol(ds[i]);
    }
    forall i | 0 <= i < |ds| ensures Digits(Text(ds))[i] == ds[i] { DigitAt(Text(ds), i); }
  }

  /** Zero bits up to a full sextet do not add a byte. */
  lemma SextetsCarryBytes(data: seq<nat>)
    requires AreDigits(data, 8)
    ensures Pack(Unpack(Sextets(data), 6), 8) == data
  {
    UnpackLength(data, 8);
    PaddedSextets(|data|);
    UnpackPack(Padded(data), 6);
    ZerosValues(|data|);
    PackUnpack(data, 8, Zeros(ZerosFor(|data|)));
  }

  /** Decoding what the encoder wrote gives the bytes back, for any length. */
  lemma Base64RoundTrip(data: seq<nat>)
    requires AreDigits(data, 8)
    ensures DecodedBase64(EncodedBase64(data)) == Ok(data)
  {
    var ds := Sextets(data);
    DigitsOfText(ds);
    StopAtFiller(Text(ds), Filler(|ds|));
    assert EncodedBase64(data)[..|Text(ds)|] == Text(ds);
    SextetsCarryBytes(data);
  }

  /** Four characters for every three bytes begun: what the encoder reserves. */
  lemma EncodedLength(data: seq<nat>)
    ensures |EncodedBase64(data)| == (|data| + 2) / 3 * 4
  {
    UnpackLength(data, 8);
    PackDigits(Padded(data), 6);
    SextetCount(|data|);
  }

  lemma SextetCount(n: nat)
    ensures var k := (8 * n + ZerosFor(n)) / 6;
            k + (4 - k % 4) % 4 == (n + 2) / 3 * 4
  {
    ZerosValues(n);
    var q, r := n / 3, n % 3;
    var t := if r == 0 then 0 else r + 1;
    var k := 4 * q + t;
    assert 8 * n + ZerosFor(n) == k * 6 + 0;
    DivModUnique(k, 6, 0);
    DivModUnique(q, 4, t);
    DivModUnique(if r == 0 then q else q + 1, 3, if r == 0 then 2 else r - 1);
  }
}
