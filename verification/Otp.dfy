/** Base32 secrets. */
module Otp {

  import opened Common
  import opened BitStream
  import T = Text

  // -------------------------------------------------------------- alphabet

  /** The value of a character in the lookup table, -1 outside the alphabet. */
  function Lookup(c: char): int {
    if 'A' <= c <= 'Z' then c as int - 'A' as int
    else if 'a' <= c <= 'z' then c as int - 'a' as int
    else if '2' <= c <= '7' then c as int - '2' as int + 26
    else -1
  }

  /** Characters the decoder skips: padding and `std::isspace`. */
  predicate IsSkipped(c: char) {
    c == '=' || c == ' ' || '\t' <= c <= '\r'
  }

  // Table 3 of RFC 4648.
  const ALPHABET := T.UPPER + "234567"

  lemma UpperLookup(c: char)
    ensures 'A' <= c <= 'Z' ==> T.UPPER[c as int - 65] == c && ALPHABET[c as int - 65] == c
  {
    if 'A' <= c <= 'Z' { T.LettersInOrder(c as int - 65); }
  }

  lemma LowerLookup(c: char)
    ensures 'a' <= c <= 'z' ==> T.LOWER[c as int - 97] == c
  {
    if 'a' <= c <= 'z' { T.LettersInOrder(c as int - 97); }
  }

  lemma DigitLookup(c: char)
    ensures '2' <= c <= '7' <==> c in "234567"
    ensures '2' <= c <= '7' ==> ALPHABET[26 + (c as int - 50)] == c
  {
    if '2' <= c <= '7' { assert "234567"[c as int - 50] == c; }
  }

  lemma InAlphabet(c: char)
    ensures c in ALPHABET <==> 'A' <= c <= 'Z' || '2' <= c <= '7'
  {
    T.RunOfUpper(c);
    DigitLookup(c);
  }

  /** A letter, in either case, or a digit from 2 to 7 is its position in the alphabet. */
  lemma LookupMeaning(c: char)
    ensures Lookup(c) == -1 <==> c !in ALPHABET && c !in T.LOWER
    ensures c in ALPHABET ==> 0 <= Lookup(c) < 32 && ALPHABET[Lookup(c)] == c
    ensures c in T.LOWER ==> 0 <= Lookup(c) < 26 && T.LOWER[Lookup(c)] == c
  {
    InAlphabet(c);
    T.RunOfLower(c);
    UpperLookup(c);
    LowerLookup(c);
    DigitLookup(c);
  }

  /** Skipped: padding, and the six characters that `std::isspace` knows. */
  lemma SkippedMeaning(c: char)
    ensures IsSkipped(c) <==> c in "= \t\n\r" || c as int == 11 || c as int == 12
  {
  }

  function Significant(input: string): string {
    if input == [] then []
    else Significant(input[..|input| - 1]) + if IsSkipped(input[|input| - 1]) then [] else [input[|input| - 1]]
  }

  predicate AllInAlphabet(symbols: string) {
    forall i :: 0 <= i < |symbols| ==> Lookup(symbols[i]) != -1
  }

  function Digits(symbols: string): seq<nat>
    requires AllInAlphabet(symbols)
  {
    seq(|symbols|, i requires 0 <= i < |symbols| => Lookup(symbols[i]))
  }

  // --------------------------------------------------------------- base32

  /** Section 6 of RFC 4648: the complete bytes of the concatenated 5-bit groups. */
  function DecodedBase32(input: string): Result<seq<nat>> {
    var symbols := Significant(input);
    if AllInAlphabet(symbols) then Ok(Pack(Unpack(Digits(symbols), 5), 8))
    else Err("Invalid Base32 character encountered")
  }

  /** The shift-and-mask loop on a 32-bit int that is never masked and wraps. */
  method DecodeBase32(input: string) returns (r: Result<seq<nat>>)
    ensures r == DecodedBase32(input)
  {
    var output: seq<nat> := [];
    var buffer, bitsLeft := 0, 0;
    ghost var pending: BitSeq := [];
    var i := 0;
    while i < |input|
      invariant i <= |input|
      invariant AllInAlphabet(Significant(input[..i]))
      invariant Stage(Digits(Significant(input[..i])), 5, output, buffer, pending)
      invariant bitsLeft == |pending|
    {
      var c := input[i];
      SignificantStep(input, i);
      i := i + 1;
      if IsSkipped(c) {
        continue;
      }
      if Lookup(c) == -1 {
        BadSymbolStays(input, i - 1);
        return Err("Invalid Base32 character encountered");
      }
      assert Pow2(5) == 32;
      ghost var before := buffer;
      buffer := Wrap32(buffer * 32 + Lookup(c));
      pending := DigitStep(Digits(Significant(input[..i - 1])), 5, 32, output, before, buffer, pending, Lookup(c));
      bitsLeft := bitsLeft + 5;
      if bitsLeft >= 8 {
        output := output + [ByteAt(buffer, bitsLeft - 8)];
        bitsLeft := bitsLeft - 8;
      }
    }
    assert input[..i] == input;
    DecodingDone(Digits(Significant(input)), 5, output, pending);
    return Ok(output);
  }

  lemma SignificantStep(input: string, i: nat)
    requires i < |input| && AllInAlphabet(Significant(input[..i]))
    ensures IsSkipped(input[i]) ==> Significant(input[..i + 1]) == Significant(input[..i])
    ensures !IsSkipped(input[i]) && Lookup(input[i]) != -1 ==>
              AllInAlphabet(Significant(input[..i + 1]))
              && Digits(Significant(input[..i + 1])) == Digits(Significant(input[..i])) + [Lookup(input[i])]
  {
    assert input[..i + 1][..i] == input[..i];
    assert Significant(input[..i + 1]) == Significant(input[..i]) + if IsSkipped(input[i]) then [] else [input[i]];
  }

  lemma {:induction false} SignificantConcat(a: string, b: string)
    ensures Significant(a + b) == Significant(a) + Significant(b)
  {
    if b == [] {
      assert a + b == a;
    } else {
      assert (a + b)[..|a + b| - 1] == a + b[..|b| - 1];
      SignificantConcat(a, b[..|b| - 1]);
    }
  }

  lemma BadSymbolStays(input: string, i: nat)
    requires i < |input| && !IsSkipped(input[i]) && Lookup(input[i]) == -1
    ensures !AllInAlphabet(Significant(input))
  {
    var before, after := input[..i + 1], input[i + 1..];
    assert input == before + after;
    BadSymbolIn(before, after);
  }

  lemma BadSymbolIn(before: string, after: string)
    requires before != "" && !IsSkipped(before[|before| - 1]) && Lookup(before[|before| - 1]) == -1
    ensures !AllInAlphabet(Significant(before + after))
  {
    SignificantConcat(before, after);
    SignificantLast(before);
    var symbols := Significant(before + after);
    assert Lookup(symbols[|Significant(before)| - 1]) == -1;
  }

  lemma SignificantLast(s: string)
    requires s != "" && !IsSkipped(s[|s| - 1])
    ensures Significant(s) != "" && Significant(s)[|Significant(s)| - 1] == s[|s| - 1]
  {
  }

  /** The length the specification promises: the first floor(5k/8) bytes. */
  lemma Base32Length(input: string)
    requires AllInAlphabet(Significant(input))
    ensures |DecodedBase32(input).value| == 5 * |Significant(input)| / 8
    ensures AreDigits(DecodedBase32(input).value, 8)
  {
    UnpackLength(Digits(Significant(input)), 5);
    PackDigits(Unpack(Digits(Significant(input)), 5), 8);
  }

  // ----------------------------------------------------- base32 round trip

  function Symbol(d: nat): char
    requires d < 32
  {
    if d < 26 then 'A' + d as char else '2' + (d - 26) as char
  }

  /** Zero bits up to a full group of five. */
  function PadBits(n: nat): (zeros: nat)
    ensures zeros < 5 && (n + zeros) % 5 == 0
  {
    var r := n % 5;
    DivModUnique(n / 5 + if r == 0 then 0 else 1, 5, 0);
    if r == 0 then 0 else 5 - r
  }

  function Padded(data: seq<nat>): (stream: BitSeq)
    ensures |stream| % 5 == 0
  {
    Unpack(data, 8) + Zeros(PadBits(|Unpack(data, 8)|))
  }

  function Quintets(data: seq<nat>): (ds: seq<nat>)
    ensures forall i :: 0 <= i < |ds| ==> ds[i] < 32
  {
    PackDigits(Padded(data), 5);
    assert Pow2(5) == 32;
    Pack(Padded(data), 5)
  }

  function SymbolText(ds: seq<nat>): string
    requires forall i :: 0 <= i < |ds| ==> ds[i] < 32
  {
    seq(|ds|, i requires 0 <= i < |ds| => Symbol(ds[i]))
  }

  function Filler(n: nat): string {
    seq((8 - n % 8) % 8, _ => '=')
  }

  /** Section 6 of RFC 4648, encoding: zero bits up to a full group, then `=` up
      to a multiple of eight characters. */
  function EncodedBase32(data: seq<nat>): string {
    SymbolText(Quintets(data)) + Filler(|Quintets(data)|)
  }

  lemma {:induction false} NothingSkipped(s: string)
    requires forall i :: 0 <= i < |s| ==> !IsSkipped(s[i])
    ensures Significant(s) == s
  {
    if s != [] {
      NothingSkipped(s[..|s| - 1]);
      assert s == s[..|s| - 1] + [s[|s| - 1]];
    }
  }

  lemma {:induction false} AllSkipped(s: string)
    requires forall i :: 0 <= i < |s| ==> IsSkipped(s[i])
    ensures Significant(s) == []
  {
    if s != [] { AllSkipped(s[..|s| - 1]); }
  }

  lemma SymbolsThenFiller(ds: seq<nat>, filler: string)
    requires forall i :: 0 <= i < |ds| ==> ds[i] < 32
    requires forall i :: 0 <= i < |filler| ==> filler[i] == '='
    ensures var text := SymbolText(ds) + filler;
            AllInAlphabet(Significant(text)) && Digits(Significant(text)) == ds
  {
    var symbols := SymbolText(ds);
    NothingSkipped(symbols);
    AllSkipped(filler);
    SignificantConcat(symbols, filler);
    assert symbols + [] == symbols;
  }

  /** Zero bits up to a full group do not add a byte. */
  lemma QuintetsCarryBytes(data: seq<nat>)
    requires AreDigits(data, 8)
    ensures Pack(Unpack(Quintets(data), 5), 8) == data
  {
    UnpackPack(Padded(data), 5);
    PackUnpack(data, 8, Zeros(PadBits(|Unpack(data, 8)|)));
  }

  /** Decoding a canonical encoding gives the bytes back. */
  lemma Base32RoundTrip(data: seq<nat>)
    requires AreDigits(data, 8)
    ensures DecodedBase32(EncodedBase32(data)) == Ok(data)
  {
    SymbolsThenFiller(Quintets(data), Filler(|Quintets(data)|));
    QuintetsCarryBytes(data);
  }
}
