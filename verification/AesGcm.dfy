/** The IV | TAG | CIPHERTEXT framing around an AES-256-GCM primitive, which is
    an assumption of this module. */
module AesGcm {

  import opened Common
  import opened BitStream
  import opened Base64

  const KEY_SIZE := 32
  const IV_SIZE := 12
  const TAG_SIZE := 16

  datatype Sealed = Sealed(cipher: seq<nat>, tag: seq<nat>)

  /** What the library calls compute; `open` gives None on a tag mismatch. */
  datatype Primitive = Primitive(
    seal: (seq<nat>, seq<nat>, seq<nat>) -> Sealed,
    open: (seq<nat>, seq<nat>, seq<nat>, seq<nat>) -> Option<seq<nat>>)

  /** The assumption on the primitive for one key, nonce and plaintext: it works
      on bytes, its tag has 16 of them, and it opens what it sealed. */
  predicate Opens(p: Primitive, key: seq<nat>, iv: seq<nat>, plain: seq<nat>) {
    var sealed := p.seal(key, iv, plain);
    && AreDigits(sealed.cipher, 8) && AreDigits(sealed.tag, 8) && |sealed.tag| == TAG_SIZE
    && p.open(key, iv, sealed.tag, sealed.cipher) == Some(plain)
  }

  /** The key bytes behind a Base64 key text: exactly 32 of them. */
  function KeyOf(keyText: string): Result<seq<nat>> {
    match DecodedBase64(keyText)
    case Err(message) => Err(message)
    case Ok(key) => if |key| == KEY_SIZE then Ok(key) else Err("aes_gcm: key must be 32 bytes (AES-256)")
  }

  function Encrypted(p: Primitive, plain: seq<nat>, keyText: string, iv: seq<nat>): Result<string> {
    match KeyOf(keyText)
    case Err(message) => Err(message)
    case Ok(key) =>
      var sealed := p.seal(key, iv, plain);
      Ok(EncodedBase64(iv + sealed.tag + sealed.cipher))
  }

  function Decrypted(p: Primitive, cipherText: string, keyText: string): Result<seq<nat>> {
    match KeyOf(keyText)
    case Err(message) => Err(message)
    case Ok(key) =>
      match DecodedBase64(cipherText)
      case Err(message) => Err(message)
      case Ok(blob) =>
        if |blob| < IV_SIZE + TAG_SIZE then Err("aes_gcm: ciphertext too short")
        else
          match p.open(key, blob[..IV_SIZE], blob[IV_SIZE..IV_SIZE + TAG_SIZE], blob[IV_SIZE + TAG_SIZE..])
          case Some(plain) => Ok(plain)
          case None => Err("aes_gcm: authentication tag mismatch")
  }

  method DecodeKey(keyText: string) returns (r: Result<seq<nat>>)
    ensures r == KeyOf(keyText)
  {
    r := Base64Decode(keyText);
    if r.Ok? && |r.value| != KEY_SIZE {
      r := Err("aes_gcm: key must be 32 bytes (AES-256)");
    }
  }

  /** `encrypt`; the random IV is an argument. */
  method Encrypt(p: Primitive, plain: seq<nat>, keyText: string, iv: seq<nat>) returns (r: Result<string>)
    requires AreDigits(iv, 8)
    requires KeyOf(keyText).Ok? ==>
               var sealed := p.seal(KeyOf(keyText).value, iv, plain);
               AreDigits(sealed.cipher, 8) && AreDigits(sealed.tag, 8)
    ensures r == Encrypted(p, plain, keyText, iv)
  {
    var key := DecodeKey(keyText);
    if key.Err? {
      return Err(key.message);
    }
    var sealed := p.seal(key.value, iv, plain);
    var blob := iv;
    blob := blob + sealed.tag;
    blob := blob + sealed.cipher;
    var text := Base64Encode(blob);
    return Ok(text);
  }

  /** `decrypt`. */
  method Decrypt(p: Primitive, cipherText: string, keyText: string) returns (r: Result<seq<nat>>)
    ensures r == Decrypted(p, cipherText, keyText)
  {
    var key := DecodeKey(keyText);
    if key.Err? {
      return Err(key.message);
    }
    var blob := Base64Decode(cipherText);
    if blob.Err? {
      return Err(blob.message);
    }
    if |blob.value| < IV_SIZE + TAG_SIZE {
      return Err("aes_gcm: ciphertext too short");
    }
    var iv := blob.value[..IV_SIZE];
    var tag := blob.value[IV_SIZE..IV_SIZE + TAG_SIZE];
    var plain := p.open(key.value, iv, tag, blob.value[IV_SIZE + TAG_SIZE..]);
    match plain
    case None => return Err("aes_gcm: authentication tag mismatch");
    case Some(text) => return Ok(text);
  }

  /** Given a primitive that opens what it sealed, `decrypt` undoes `encrypt`. */
  lemma DecryptUndoesEncrypt(p: Primitive, plain: seq<nat>, keyText: string, iv: seq<nat>)
    requires KeyOf(keyText).Ok? && AreDigits(iv, 8) && |iv| == IV_SIZE
    requires Opens(p, KeyOf(keyText).value, iv, plain)
    ensures Encrypted(p, plain, keyText, iv).Ok?
    ensures Decrypted(p, Encrypted(p, plain, keyText, iv).value, keyText) == Ok(plain)
  {
    var sealed := p.seal(KeyOf(keyText).value, iv, plain);
    var blob := iv + sealed.tag + sealed.cipher;
    Base64RoundTrip(blob);
    assert blob[..12] == iv && blob[12..28] == sealed.tag && blob[28..] == sealed.cipher;
  }

  /** What `decrypt` accepts: a key text of 32 bytes, and a text of at least 28 bytes
      whose first 12 are the nonce and the next 16 the tag that opens the rest. */
  lemma DecryptMeaning(p: Primitive, cipherText: string, keyText: string, plain: seq<nat>)
    ensures Decrypted(p, cipherText, keyText) == Ok(plain)
            <==> && DecodedBase64(keyText).Ok? && |DecodedBase64(keyText).value| == 32
                 && DecodedBase64(cipherText).Ok? && |DecodedBase64(cipherText).value| >= 28
                 && var key, blob := DecodedBase64(keyText).value, DecodedBase64(cipherText).value;
                    p.open(key, blob[..12], blob[12..28], blob[28..]) == Some(plain)
  {
  }

  /** What `encrypt` writes: nonce, tag and cipher text, in this order, for a key of 32 bytes. */
  lemma EncryptMeaning(p: Primitive, plain: seq<nat>, keyText: string, iv: seq<nat>)
    requires AreDigits(iv, 8) && (KeyOf(keyText).Ok? ==> Opens(p, KeyOf(keyText).value, iv, plain))
    ensures Encrypted(p, plain, keyText, iv).Ok?
            <==> DecodedBase64(keyText).Ok? && |DecodedBase64(keyText).value| == 32
    ensures Encrypted(p, plain, keyText, iv).Ok? ==>
              var sealed := p.seal(DecodedBase64(keyText).value, iv, plain);
              DecodedBase64(Encrypted(p, plain, keyText, iv).value) == Ok(iv + sealed.tag + sealed.cipher)
  {
    if KeyOf(keyText).Ok? {
      var sealed := p.seal(KeyOf(keyText).value, iv, plain);
      Base64RoundTrip(iv + sealed.tag + sealed.cipher);
    }
  }

  /** The framing is 12 + 16 + N bytes, so its text has 4 * ceil((28 + N) / 3) characters. */
  lemma EncryptedLength(p: Primitive, plain: seq<nat>, keyText: string, iv: seq<nat>)
    requires KeyOf(keyText).Ok? && |iv| == IV_SIZE
    requires |p.seal(KeyOf(keyText).value, iv, plain).tag| == TAG_SIZE
    ensures |Encrypted(p, plain, keyText, iv).value|
         == (28 + |p.seal(KeyOf(keyText).value, iv, plain).cipher| + 2) / 3 * 4
  {
    var sealed := p.seal(KeyOf(keyText).value, iv, plain);
    EncodedLength(iv + sealed.tag + sealed.cipher);
  }
}
