/** The sealed-blob format and the envelope around it. AES-GCM, zlib, UTF-8 and base64
    are parameters with the laws the code relies on. */
module Sealing {
  import opened Wrappers

  newtype Byte = x: int | 0 <= x < 256
  type Bytes = seq<Byte>

  const NONCE_LENGTH := 12
  const TAG_LENGTH := 16
  const KEY_LENGTH := 32
  const MAX_WRAPPED := 65535

  datatype SealedBlob = SealedBlob(wrapped: Bytes, nonce: Bytes, ciphertext: Bytes)

  datatype FormatError = StructError

  /** struct.pack(">H", n) */
  function PackLength(n: nat): Bytes
    requires n <= MAX_WRAPPED
  {
    [(n / 256) as Byte, (n % 256) as Byte]
  }

  function UnpackLength(b: Bytes): nat
    requires |b| == 2
  {
    b[0] as int * 256 + b[1] as int
  }

  /** raw[lo:hi] as Python takes it: bounds past the end are clamped. */
  function Cut(raw: Bytes, lo: nat, hi: nat): Bytes
    requires lo <= hi
  {
    raw[Min(lo, |raw|)..Min(hi, |raw|)]
  }

  function Serialize(b: SealedBlob): Result<Bytes, FormatError> {
    if |b.wrapped| > MAX_WRAPPED then Err(StructError)
    else Ok(PackLength(|b.wrapped|) + b.wrapped + b.nonce + b.ciphertext)
  }

  function Deserialize(raw: Bytes): Result<SealedBlob, FormatError> {
    if |raw| < 2 then Err(StructError)
    else
      var end := 2 + UnpackLength(raw[..2]);
      Ok(SealedBlob(Cut(raw, 2, end), Cut(raw, end, end + NONCE_LENGTH), raw[Min(end + NONCE_LENGTH, |raw|)..]))
  }

  /** `deserialize` with its running offset. */
  method Parse(raw: Bytes) returns (r: Result<SealedBlob, FormatError>)
    ensures r == Deserialize(raw)
  {
    if |raw| < 2 {
      return Err(StructError);
    }
    var wlen := UnpackLength(raw[..2]);
    var offset := 2;
    var wrapped := Cut(raw, offset, offset + wlen);
    offset := offset + wlen;
    var nonce := Cut(raw, offset, offset + NONCE_LENGTH);
    offset := offset + NONCE_LENGTH;
    r := Ok(SealedBlob(wrapped, nonce, raw[Min(offset, |raw|)..]));
  }

  lemma LengthRoundTrip(n: nat)
    requires n <= MAX_WRAPPED
    ensures UnpackLength(PackLength(n)) == n
  {
  }

  lemma LengthRoundTripBack(b: Bytes)
    requires |b| == 2
    ensures UnpackLength(b) <= MAX_WRAPPED && PackLength(UnpackLength(b)) == b
  {
  }

  /** The bytes of a stored blob: a two-byte big-endian length, the wrapped key of that
      length, the nonce, the ciphertext. A longer key cannot be written. */
  lemma StoredLayout(b: SealedBlob)
    ensures Serialize(b).Ok? <==> |b.wrapped| <= 65535
    ensures |b.wrapped| <= 65535 ==>
              var raw, end := Serialize(b).value, 2 + |b.wrapped|;
              && |raw| == end + |b.nonce| + |b.ciphertext|
              && raw[0] as int * 256 + raw[1] as int == |b.wrapped|
              && raw[2..end] == b.wrapped
              && raw[end..end + |b.nonce|] == b.nonce && raw[end + |b.nonce|..] == b.ciphertext
  {
  }

  /** Reading back what was written gives the same blob exactly when the nonce has its
      12 bytes (or is short with nothing after it). */
  lemma ReadBackExactly(b: SealedBlob)
    requires |b.wrapped| <= MAX_WRAPPED
    ensures Deserialize(Serialize(b).value) == Ok(b) <==>
            |b.nonce| == NONCE_LENGTH || (|b.nonce| < NONCE_LENGTH && b.ciphertext == [])
  {
    var raw := Serialize(b).value;
    LengthRoundTrip(|b.wrapped|);
    assert raw[..2] == PackLength(|b.wrapped|);
    var end := 2 + |b.wrapped|;
    assert raw[2..end] == b.wrapped;
    assert raw[end..] == b.nonce + b.ciphertext;
    var rest := raw[end..];
    assert Cut(raw, end, end + NONCE_LENGTH) == rest[..Min(NONCE_LENGTH, |rest|)];
    assert raw[Min(end + NONCE_LENGTH, |raw|)..] == rest[Min(NONCE_LENGTH, |rest|)..];
    if |b.nonce| == NONCE_LENGTH || (|b.nonce| < NONCE_LENGTH && b.ciphertext == []) {
      assert rest[..Min(NONCE_LENGTH, |rest|)] == b.nonce;
      assert rest[Min(NONCE_LENGTH, |rest|)..] == b.ciphertext;
    }
  }

  /** Writing back what was read gives the same bytes exactly when the input is long
      enough for the key it announces. */
  lemma WriteBackExactly(raw: Bytes)
    ensures Deserialize(raw).Ok? <==> |raw| >= 2
    ensures |raw| >= 2 ==>
              (Serialize(Deserialize(raw).value) == Ok(raw) <==> |raw| >= 2 + UnpackLength(raw[..2]))
  {
    if |raw| >= 2 {
      var b := Deserialize(raw).value;
      var wlen := UnpackLength(raw[..2]);
      LengthRoundTripBack(raw[..2]);
      var out := Serialize(b).value;
      assert out[..2] == PackLength(|b.wrapped|);
      LengthRoundTrip(|b.wrapped|);
      if |raw| >= 2 + wlen {
        assert raw == raw[..2] + b.wrapped + b.nonce + b.ciphertext;
      } else {
        assert |b.wrapped| < wlen;
      }
    }
  }

  // ----- the envelope ----------------------------------------------------------

  datatype Suite = Suite(
    encrypt: (Bytes, Bytes, Bytes) -> Bytes,             // key, nonce, plaintext
    decrypt: (Bytes, Bytes, Bytes) -> Option<Bytes>,     // None: the tag does not match
    compress: Bytes -> Bytes,
    decompress: Bytes -> Option<Bytes>)

  ghost predicate Lawful(c: Suite) {
    && (forall k, n, p :: c.decrypt(k, n, c.encrypt(k, n, p)) == Some(p))
    && (forall k, n, p :: |c.encrypt(k, n, p)| == |p| + TAG_LENGTH)
    && (forall p :: c.decompress(c.compress(p)) == Some(p))
  }

  /** Authenticated encryption: only what was encrypted opens. */
  ghost predicate Authentic(c: Suite) {
    forall k, n, x, p :: c.decrypt(k, n, x) == Some(p) ==> x == c.encrypt(k, n, p)
  }

  /** `kek` is the master key; the data key and both nonces are drawn at random. */
  function Seal(c: Suite, kek: Bytes, dek: Bytes, dekNonce: Bytes, dataNonce: Bytes, plain: Bytes): SealedBlob {
    SealedBlob(dekNonce + c.encrypt(kek, dekNonce, dek), dataNonce, c.encrypt(dek, dataNonce, c.compress(plain)))
  }

  function Unseal(c: Suite, kek: Bytes, b: SealedBlob): Option<Bytes> {
    var dek := c.decrypt(kek, Cut(b.wrapped, 0, NONCE_LENGTH), b.wrapped[Min(NONCE_LENGTH, |b.wrapped|)..]);
    if dek.None? then None
    else
      var compressed := c.decrypt(dek.value, b.nonce, b.ciphertext);
      if compressed.None? then None else c.decompress(compressed.value)
  }

  lemma SealRoundTrip(c: Suite, kek: Bytes, dek: Bytes, dekNonce: Bytes, dataNonce: Bytes, plain: Bytes)
    requires Lawful(c) && |dek| == KEY_LENGTH && |dekNonce| == NONCE_LENGTH && |dataNonce| == NONCE_LENGTH
    ensures var b := Seal(c, kek, dek, dekNonce, dataNonce, plain);
            && Serialize(b).Ok?
            && Deserialize(Serialize(b).value) == Ok(b)
            && Unseal(c, kek, b) == Some(plain)
  {
    var b := Seal(c, kek, dek, dekNonce, dataNonce, plain);
    assert |b.wrapped| == 60;
    ReadBackExactly(b);
    assert Cut(b.wrapped, 0, NONCE_LENGTH) == dekNonce;
    assert b.wrapped[NONCE_LENGTH..] == c.encrypt(kek, dekNonce, dek);
  }

  /** What can open in place of a stored blob: bytes that keep its first 62, the length and
      the wrapped data key, unseal only when all the rest was encrypted under that blob's
      own data key. */
  lemma TamperingIsDetected(
    c: Suite, kek: Bytes, dek: Bytes, dekNonce: Bytes, dataNonce: Bytes, plain: Bytes, raw: Bytes)
    requires Lawful(c) && Authentic(c)
    requires |dek| == KEY_LENGTH && |dekNonce| == NONCE_LENGTH && |dataNonce| == NONCE_LENGTH
    requires |raw| >= 62 && raw[..62] == Serialize(Seal(c, kek, dek, dekNonce, dataNonce, plain)).value[..62]
    requires Unseal(c, kek, Deserialize(raw).value).Some?
    ensures exists nonce, packed ::
              && raw == raw[..62] + nonce + c.encrypt(dek, nonce, packed)
              && Unseal(c, kek, Deserialize(raw).value) == c.decompress(packed)
  {
    var b := Seal(c, kek, dek, dekNonce, dataNonce, plain);
    var stored := Serialize(b).value;
    assert |b.wrapped| == 60 && |stored| >= 62;
    LengthRoundTrip(60);
    assert stored[..62] == PackLength(60) + b.wrapped;
    assert raw[..2] == raw[..62][..2] == PackLength(60);
    var r := Deserialize(raw).value;
    assert r.wrapped == raw[..62][2..] == b.wrapped;
    SameDataKey(c, kek, dek, dekNonce, b.wrapped);
    var packed := c.decrypt(dek, r.nonce, r.ciphertext).value;
    assert raw == raw[..62] + r.nonce + r.ciphertext;
    assert r.ciphertext == c.encrypt(dek, r.nonce, packed);
  }

  lemma SameDataKey(c: Suite, kek: Bytes, dek: Bytes, dekNonce: Bytes, wrapped: Bytes)
    requires Lawful(c) && |dekNonce| == NONCE_LENGTH && wrapped == dekNonce + c.encrypt(kek, dekNonce, dek)
    ensures c.decrypt(kek, Cut(wrapped, 0, NONCE_LENGTH), wrapped[Min(NONCE_LENGTH, |wrapped|)..]) == Some(dek)
  {
    assert Cut(wrapped, 0, NONCE_LENGTH) == dekNonce;
    assert wrapped[NONCE_LENGTH..] == c.encrypt(kek, dekNonce, dek);
  }

  // ----- small secrets -----------------------------------------------------------

  datatype Codec = Codec(
    encode: string -> Bytes, decode: Bytes -> Option<string>,       // UTF-8
    armor: Bytes -> string, unarmor: string -> Option<Bytes>)       // base64

  ghost predicate CodecLaws(t: Codec) {
    && (forall s :: t.decode(t.encode(s)) == Some(s))
    && (forall b :: t.unarmor(t.armor(b)) == Some(b))
  }

  function EncryptSecret(c: Suite, t: Codec, kek: Bytes, dek: Bytes, dekNonce: Bytes, dataNonce: Bytes, secret: string)
    : Result<string, FormatError>
  {
    match Serialize(Seal(c, kek, dek, dekNonce, dataNonce, t.encode(secret)))
    case Err(e) => Err(e)
    case Ok(raw) => Ok(t.armor(raw))
  }

  function DecryptSecret(c: Suite, t: Codec, kek: Bytes, token: string): Option<string> {
    var raw := t.unarmor(token);
    if raw.None? || Deserialize(raw.value).Err? then None
    else
      var plain := Unseal(c, kek, Deserialize(raw.value).value);
      if plain.None? then None else t.decode(plain.value)
  }

  lemma SecretRoundTrip(c: Suite, t: Codec, kek: Bytes, dek: Bytes, dekNonce: Bytes, dataNonce: Bytes, secret: string)
    requires Lawful(c) && CodecLaws(t)
    requires |dek| == KEY_LENGTH && |dekNonce| == NONCE_LENGTH && |dataNonce| == NONCE_LENGTH
    ensures var token := EncryptSecret(c, t, kek, dek, dekNonce, dataNonce, secret);
            && token.Ok? && DecryptSecret(c, t, kek, token.value) == Some(secret)
            && t.unarmor(token.value).Some? && Deserialize(t.unarmor(token.value).value).Ok?
            && Unseal(c, kek, Deserialize(t.unarmor(token.value).value).value) == Some(t.encode(secret))
  {
    SealRoundTrip(c, kek, dek, dekNonce, dataNonce, t.encode(secret));
  }
}
