/** HOTP codes and the acceptance window of TOTP tokens. */
module Totp {

  import opened Common
  import opened Decimals
  import opened BitStream
  import opened Otp

  const HASH_SIZE := 20   // HMAC-SHA-1

  /** HMAC of a key and a message; None when the library call fails. */
  type Mac = (seq<nat>, seq<nat>) -> Option<seq<nat>>

  /** The assumption on the primitive for one input: 20 bytes or a failure. */
  predicate IsHash(h: Option<seq<nat>>) {
    h.Some? ==> |h.value| == HASH_SIZE && AreDigits(h.value, 8)
  }

  // --------------------------------------------------------- moving factor

  /** The counter as eight bytes, most significant first. */
  function CounterBytes(counter: nat): seq<nat> {
    Pack(Bits(counter, 64), 8)
  }

  lemma {:induction false} CounterByte(counter: nat, i: nat)
    requires counter < Pow2(64) && i < 8
    ensures |CounterBytes(counter)| == 8
    ensures CounterBytes(counter)[i] == counter / Pow2((7 - i) * 8) % 256
  {
    Powers();
    ValueOfBits(counter, 64);
    PackDigits(Bits(counter, 64), 8);
    AlignedAt(i, 8);
    GroupValue(Bits(counter, 64), 8, i, 8 * i);
    assert 64 - i * 8 - 8 == (7 - i) * 8;
  }

  /** The byte-swapping loop. */
  method BigEndian(counter: nat) returns (bytes: seq<nat>)
    requires counter < Pow2(64)
    ensures bytes == CounterBytes(counter)
  {
    bytes := [];
    var i := 0;
    while i < 8
      invariant i <= 8 && |bytes| == i
      invariant forall k :: 0 <= k < i ==> bytes[k] == counter / Pow2((7 - k) * 8) % 256
    {
      bytes := bytes + [counter / Pow2((7 - i) * 8) % 256];
      i := i + 1;
    }
    CounterByte(counter, 0);
    forall k | 0 <= k < 8 ensures bytes[k] == CounterBytes(counter)[k] { CounterByte(counter, k); }
  }

  /** Different counters give different messages. */
  lemma CounterBytesInjective(a: nat, b: nat)
    requires a < Pow2(64) && b < Pow2(64) && CounterBytes(a) == CounterBytes(b)
    ensures a == b
  {
    UnpackPack(Bits(a, 64), 8);
    UnpackPack(Bits(b, 64), 8);
    ValueOfBits(a, 64);
    ValueOfBits(b, 64);
  }

  // ------------------------------------------------------------ truncation

  /** Section 5.3 of RFC 4226: the last 31 bits of the four bytes at the offset
      that the low half of the last byte names. */
  function Truncated(hash: seq<nat>): nat
    requires |hash| == HASH_SIZE && AreDigits(hash, 8)
  {
    var offset := hash[19] % 16;
    UnpackLength(hash[offset..offset + 4], 8);
    Value(Unpack(hash[offset..offset + 4], 8)[1..])
  }

  lemma {:induction false} FourBytes(b: seq<nat>)
    requires |b| == 4 && AreDigits(b, 8)
    ensures Value(Unpack(b, 8)) == b[0] * 0x100_0000 + b[1] * 0x1_0000 + b[2] * 0x100 + b[3]
  {
    Powers();
    var b1, b2, b3 := b[..1], b[..2], b[..3];
    assert b1 == [] + [b[0]] && b2 == b1 + [b[1]] && b3 == b2 + [b[2]] && b == b3 + [b[3]];
    AppendByte([], b[0]);
    AppendByte(b1, b[1]);
    AppendByte(b2, b[2]);
    AppendByte(b3, b[3]);
  }

  lemma TopBitCleared(b0: nat, rest: nat)
    requires b0 < 256 && rest < 0x100_0000
    ensures (b0 * 0x100_0000 + rest) % 0x8000_0000 == b0 % 128 * 0x100_0000 + rest
  {
  }

  /** The last 31 of 32 bits, computed from the bytes. */
  lemma LowBits(b: seq<nat>)
    requires |b| == 4 && AreDigits(b, 8)
    ensures |Unpack(b, 8)| == 32
    ensures Value(Unpack(b, 8)[1..]) == b[0] % 128 * 0x100_0000 + b[1] * 0x1_0000 + b[2] * 0x100 + b[3] < 0x8000_0000
  {
    Powers();
    FourBytes(b);
    TopBitCleared(b[0], b[1] * 0x1_0000 + b[2] * 0x100 + b[3]);
    PowAdd(24, 7);
    assert Pow2(31) == 0x8000_0000;
    UnpackLength(b, 8);
    ValueSplit(Unpack(b, 8), 1);
  }

  lemma TruncatedBytes(hash: seq<nat>, offset: nat)
    requires |hash| == HASH_SIZE && AreDigits(hash, 8) && offset == hash[19] % 16
    ensures offset + 3 < 19
    ensures Truncated(hash) == hash[offset] % 128 * 0x100_0000 + hash[offset + 1] * 0x1_0000
                               + hash[offset + 2] * 0x100 + hash[offset + 3] < 0x8000_0000
  {
    LowBits(hash[offset..offset + 4]);
  }

  /** Masking the top byte with 0x7f and shifting the four bytes together. */
  method Truncate(hash: seq<nat>) returns (binary: nat)
    requires |hash| == HASH_SIZE && AreDigits(hash, 8)
    ensures binary == Truncated(hash) && binary < 0x8000_0000
  {
    var offset := hash[HASH_SIZE - 1] % 16;
    TruncatedBytes(hash, offset);
    binary := hash[offset] % 128 * 0x100_0000 + hash[offset + 1] * 0x1_0000
              + hash[offset + 2] * 0x100 + hash[offset + 3];
  }

  // ------------------------------------------------------------ formatting

  function Pow10(n: nat): (p: nat)
    ensures p > 0
  {
    if n == 0 then 1 else 10 * Pow10(n - 1)
  }

  /** Decimal with leading zeros to a minimum width, as `std::format("{:0{}}")`. */
  function Formatted(n: nat, width: nat): string
    decreases n, width
  {
    if n == 0 && width == 0 then []
    else Formatted(n / 10, if width == 0 then 0 else width - 1) + ['0' + (n % 10) as char]
  }

  lemma {:induction false} FormattedMeaning(n: nat, width: nat)
    requires n < Pow10(width)
    ensures |Formatted(n, width)| == width
    ensures AllDigits(Formatted(n, width))
    ensures Denoted(Formatted(n, width)) == n
    decreases width
  {
    if width > 0 {
      FormattedMeaning(n / 10, width - 1);
      var s := Formatted(n, width);
      assert s[..|s| - 1] == Formatted(n / 10, width - 1);
    }
  }

  /** A string of `n` digits denotes a number below the power, and `n` nines the last one. */
  lemma {:induction false} DigitsBelow(s: string)
    requires AllDigits(s)
    ensures Denoted(s) < Pow10(|s|)
    ensures (forall i :: 0 <= i < |s| ==> s[i] == '9') ==> Denoted(s) == Pow10(|s|) - 1
  {
    if s != "" { DigitsBelow(s[..|s| - 1]); }
  }

  lemma CodeModuli()
    ensures Pow10(6) == 1_000_000 && Pow10(8) == 100_000_000
  {
    assert Pow10(2) == 100;
    assert Pow10(4) == 10_000;
    assert Pow10(6) == 1_000_000;
  }

  /** Section 5.3 of RFC 4226: the code as `digits` decimal characters. */
  function Code(hash: seq<nat>, digits: nat): string
    requires |hash| == HASH_SIZE && AreDigits(hash, 8)
  {
    Formatted(Truncated(hash) % Pow10(digits), digits)
  }

  /** A code has exactly `digits` decimal characters and denotes the truncated
      value modulo ten to that power; it is the only string that does. */
  lemma CodeMeaning(hash: seq<nat>, digits: nat)
    requires |hash| == HASH_SIZE && AreDigits(hash, 8)
    ensures var code := Code(hash, digits);
            && |code| == digits && AllDigits(code) && Denoted(code) == Truncated(hash) % Pow10(digits)
            && (digits == 6 ==> Denoted(code) == Truncated(hash) % 1_000_000)
            && (digits == 8 ==> Denoted(code) == Truncated(hash) % 100_000_000)
  {
    CodeModuli();
    FormattedMeaning(Truncated(hash) % Pow10(digits), digits);
  }

  /** The token reads as the truncated value modulo 10^6 or 10^8, by its length. */
  predicate IsCode(token: string, hash: seq<nat>)
    requires |hash| == HASH_SIZE && AreDigits(hash, 8)
  {
    && AllDigits(token)
    && ((|token| == 6 && Denoted(token) == LastBits(hash) % 1_000_000)
        || (|token| == 8 && Denoted(token) == LastBits(hash) % 100_000_000))
  }

  /** Byte by byte: the offset is the low half of the last byte, the top bit goes. */
  function LastBits(hash: seq<nat>): nat
    requires |hash| == 20 && AreDigits(hash, 8)
  {
    var offset := hash[19] % 16;
    hash[offset] % 128 * 16_777_216 + hash[offset + 1] * 65_536 + hash[offset + 2] * 256 + hash[offset + 3]
  }

  lemma LastBitsMeaning(hash: seq<nat>)
    requires |hash| == HASH_SIZE && AreDigits(hash, 8)
    ensures LastBits(hash) == Truncated(hash)
  {
    TruncatedBytes(hash, hash[19] % 16);
  }

  lemma CodeIsToken(hash: seq<nat>, token: string)
    requires |hash| == HASH_SIZE && AreDigits(hash, 8) && (|token| == 6 || |token| == 8)
    ensures Code(hash, |token|) == token <==> IsCode(token, hash)
  {
    var code := Code(hash, |token|);
    CodeMeaning(hash, |token|);
    LastBitsMeaning(hash);
    if AllDigits(token) && Denoted(code) == Denoted(token) { DenotedInjective(code, token); }
  }

  /** `generate_hotp`. */
  function Hotp(mac: Mac, key: seq<nat>, counter: nat, digits: nat): Result<string>
    requires IsHash(mac(key, CounterBytes(counter)))
  {
    match mac(key, CounterBytes(counter))
    case None => Err("OpenSSL HMAC calculation failed")
    case Some(hash) => Ok(Code(hash, digits))
  }

  method GenerateHotp(mac: Mac, key: seq<nat>, counter: nat, digits: nat) returns (r: Result<string>)
    requires counter < Pow2(64) && IsHash(mac(key, CounterBytes(counter)))
    ensures r == Hotp(mac, key, counter, digits)
  {
    var message := BigEndian(counter);
    var hash := mac(key, message);
    if hash.None? {
      return Err("OpenSSL HMAC calculation failed");
    }
    var binary := Truncate(hash.value);
    return Ok(Formatted(binary % Pow10(digits), digits));
  }

  // ---------------------------------------------------------------- window

  datatype Settings = Settings(duration: nat, window: nat)

  /** The time step a Unix time falls into; settings are 30 or 60 seconds. */
  function StepOf(timestamp: nat, config: Settings): nat
    requires config.duration > 0
  {
    timestamp / config.duration
  }

  function FirstStep(current: nat, window: nat): nat {
    if current >= window then current - window else 0
  }

  predicate WellBehaved(mac: Mac, key: seq<nat>, first: nat, last: nat) {
    forall step :: first <= step <= last ==> IsHash(mac(key, CounterBytes(step)))
  }

  /** Section 5.2 of RFC 6238: some step of the clamped window yields the token,
      and no earlier step fails to produce a code. */
  ghost predicate Accepted(mac: Mac, key: seq<nat>, token: string, first: nat, last: nat)
    requires WellBehaved(mac, key, first, last)
  {
    exists step :: first <= step <= last && Hotp(mac, key, step, |token|) == Ok(token)
      && forall earlier :: first <= earlier < step ==> Hotp(mac, key, earlier, |token|).Ok?
  }

  /** Every step before `end` made a code, and none of them is the token. */
  ghost predicate Passed(mac: Mac, key: seq<nat>, token: string, first: nat, end: nat)
    requires first < end ==> WellBehaved(mac, key, first, end - 1)
  {
    forall s :: first <= s < end ==> Hotp(mac, key, s, |token|).Ok? && Hotp(mac, key, s, |token|) != Ok(token)
  }

  /** The step after those passed decides, or is passed itself. */
  lemma Decided(mac: Mac, key: seq<nat>, token: string, first: nat, step: nat, last: nat)
    requires WellBehaved(mac, key, first, last) && first <= step <= last && Passed(mac, key, token, first, step)
    ensures var code := Hotp(mac, key, step, |token|);
            && (code == Ok(token) ==> Accepted(mac, key, token, first, last))
            && (code.Err? ==> !Accepted(mac, key, token, first, last))
            && (code.Ok? && code != Ok(token) ==> Passed(mac, key, token, first, step + 1))
  {
  }

  /** The window loop. */
  method SearchWindow(mac: Mac, key: seq<nat>, token: string, first: nat, last: nat) returns (r: Result<bool>)
    requires first <= last < Pow2(64) && WellBehaved(mac, key, first, last)
    ensures r.Ok? ==> r.value
    ensures r.Ok? <==> Accepted(mac, key, token, first, last)
  {
    var step := first;
    while step <= last
      invariant first <= step <= last + 1
      invariant Passed(mac, key, token, first, step)
    {
      Decided(mac, key, token, first, step, last);
      var generated := GenerateHotp(mac, key, step, |token|);
      if generated.Err? {
        return Err(generated.message);
      }
      if generated.value == token {
        return Ok(true);
      }
      step := step + 1;
    }
    return Err("Token validation failed: mismatch");
  }

  /** A step of the window around `current`: one or none on either side, none before 0. */
  predicate InWindow(step: nat, current: nat, window: nat) {
    current <= step + window && step <= current + window
  }

  /** The primitive gives a hash at this step, and the token is its code. */
  predicate Yields(mac: Mac, key: seq<nat>, step: nat, token: string) {
    var hash := mac(key, CounterBytes(step));
    hash.Some? && IsHash(hash) && IsCode(token, hash.value)
  }

  /** The assumption on the primitive over the window. */
  ghost predicate HashesIn(mac: Mac, key: seq<nat>, current: nat, window: nat) {
    forall step: nat :: InWindow(step, current, window) ==> IsHash(mac(key, CounterBytes(step)))
  }

  /** Sections 4.2 and 5.2 of RFC 6238: the token is the code of some step of the window,
      and the primitive works at that step and all earlier ones. */
  ghost predicate TokenMatches(mac: Mac, key: seq<nat>, token: string, current: nat, window: nat) {
    exists step: nat :: InWindow(step, current, window) && Yields(mac, key, step, token)
      && forall earlier: nat :: InWindow(earlier, current, window) && earlier < step ==>
           mac(key, CounterBytes(earlier)).Some?
  }

  lemma AcceptedMeaning(mac: Mac, key: seq<nat>, token: string, current: nat, window: nat)
    requires |token| == 6 || |token| == 8
    requires HashesIn(mac, key, current, window)
    ensures WellBehaved(mac, key, FirstStep(current, window), current + window)
    ensures Accepted(mac, key, token, FirstStep(current, window), current + window)
            <==> TokenMatches(mac, key, token, current, window)
  {
    var first, last := FirstStep(current, window), current + window;
    forall step: nat | first <= step <= last
      ensures InWindow(step, current, window)
      ensures IsHash(mac(key, CounterBytes(step)))
      ensures Hotp(mac, key, step, |token|) == Ok(token)
              <==> Yields(mac, key, step, token)
    {
      assert InWindow(step, current, window);
      if mac(key, CounterBytes(step)).Some? { CodeIsToken(mac(key, CounterBytes(step)).value, token); }
    }
    forall step: nat | InWindow(step, current, window) ensures first <= step <= last {}
  }

  /** `is_valid_token` at Unix time `timestamp`. */
  method IsValidToken(mac: Mac, token: string, secret: string, config: Settings, timestamp: nat)
    returns (r: Result<bool>)
    requires (config.duration == 30 || config.duration == 60) && config.window <= 1 && timestamp < Pow2(63)
    requires DecodedBase32(secret).Ok? ==>
               HashesIn(mac, DecodedBase32(secret).value, timestamp / config.duration, config.window)
    ensures r.Ok? ==> r.value
    ensures r.Ok? <==>
              && (|token| == 6 || |token| == 8) && secret != "" && DecodedBase32(secret).Ok?
              && TokenMatches(mac, DecodedBase32(secret).value, token, timestamp / config.duration, config.window)
  {
    if token == "" || secret == "" {
      return Err("Invalid parameters: token or secret are empty");
    }
    if |token| != 6 && |token| != 8 {
      return Err("Invalid token size (must be 6 or 8)");
    }
    var key := DecodeBase32(secret);
    if key.Err? {
      return Err("Base32 decode failed: " + key.message);
    }
    var current := StepOf(timestamp, config);
    StepsFit(timestamp, config);
    AcceptedMeaning(mac, key.value, token, current, config.window);
    r := SearchWindow(mac, key.value, token, FirstStep(current, config.window), current + config.window);
  }

  lemma StepsFit(timestamp: nat, config: Settings)
    requires (config.duration == 30 || config.duration == 60) && timestamp < Pow2(63)
    ensures StepOf(timestamp, config) + 1 < Pow2(64)
  {
    assert Pow2(64) == 2 * Pow2(63);
  }

  /** When the HMAC never fails, acceptance is exactly a match in the window. */
  lemma AcceptedWithoutFailures(mac: Mac, key: seq<nat>, token: string, current: nat, window: nat)
    requires forall step: nat :: InWindow(step, current, window) ==> mac(key, CounterBytes(step)).Some?
    ensures TokenMatches(mac, key, token, current, window)
            <==> exists step: nat :: InWindow(step, current, window) && Yields(mac, key, step, token)
  {
    if step: nat :| InWindow(step, current, window) && Yields(mac, key, step, token) {
      assert forall earlier: nat :: InWindow(earlier, current, window) && earlier < step ==>
          mac(key, CounterBytes(earlier)).Some?;
    }
  }
}
