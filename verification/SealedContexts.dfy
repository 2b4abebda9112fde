/**
Authenticated context encodings and the framing around them (`src/crypto.rs`).

Every AEAD call binds its ciphertext to associated data built from the place
the ciphertext belongs to. `Aad` lists the builders, `Decode` reads any of
them back, so no two contexts share an encoding. The AEAD itself is a pair of
functions; `Ideal` is the one thing assumed of it.
*/
module SealedContexts {
  import opened Options
  import opened Bytes

  const U64_LIMIT: nat := 0x1_0000_0000_0000_0000
  type U64 = n: nat | n < U64_LIMIT

  // ------------------------------------------------------ big-endian words

  function Power256(n: nat): nat { if n == 0 then 1 else 256 * Power256(n - 1) }

  function BigEndian(n: nat, width: nat): (r: seq<Byte>)
    ensures |r| == width
  {
    if width == 0 then [] else BigEndian(n / 256, width - 1) + [n % 256]
  }

  function FromBigEndian(s: seq<Byte>): nat {
    if s == [] then 0 else FromBigEndian(s[..|s| - 1]) * 256 + s[|s| - 1]
  }

  lemma {:induction false} BigEndianRoundTrip(n: nat, width: nat)
    requires n < Power256(width)
    ensures FromBigEndian(BigEndian(n, width)) == n
  {
    if width > 0 {
      BigEndianRoundTrip(n / 256, width - 1);
      var r := BigEndian(n, width);
      assert r[..|r| - 1] == BigEndian(n / 256, width - 1);
    }
  }

  function Word(n: U64): (r: seq<Byte>)
    ensures |r| == 8 && FromBigEndian(r) == n
  {
    assert Power256(8) == U64_LIMIT by {
      assert Power256(2) == 0x1_0000 && Power256(4) == 0x1_0000_0000;
      assert Power256(6) == 0x1_0000_0000_0000;
    }
    BigEndianRoundTrip(n, 8);
    BigEndian(n, 8)
  }

  /** `u64::try_from(len).unwrap_or(u64::MAX)` */
  function Length(s: seq<Byte>): U64 { if |s| < U64_LIMIT then |s| else U64_LIMIT - 1 }

  // ------------------------------------------------------------- contexts

  datatype Context =
    | LegacyEvent
    | Event(run: seq<Byte>, sequence: U64)
    | EventBlock(run: seq<Byte>, first: U64, count: U64, size: U64, digest: seq<Byte>)
    | Blob(hash: seq<Byte>)
    | WrappedKey(name: seq<Byte>)
    | RetentionState
    | ManifestTag(canonical: seq<Byte>)

  predicate ValidContext(c: Context) { c.EventBlock? ==> |c.digest| == 32 }

  // The domain strings, byte by byte.
  const IOREC: seq<Byte> := [105, 111, 114, 101, 99, 58]                                       // iorec:
  const EVENT_AAD_V1: seq<Byte> := IOREC + [101, 118, 101, 110, 116, 58, 118, 49]              // event:v1
  const EVENT_AAD_V2: seq<Byte> := IOREC + [101, 118, 101, 110, 116, 58, 118, 50]              // event:v2
  const EVENT_BLOCK_AAD_V1: seq<Byte> :=
    IOREC + [101, 118, 101, 110, 116, 45, 98, 108, 111, 99, 107, 58, 118, 49]                  // event-block:v1
  const MANIFEST_AAD_V1: seq<Byte> := IOREC + [109, 97, 110, 105, 102, 101, 115, 116, 58, 118, 49]  // manifest:v1
  const WRAPPED_KEY_AAD_V1: seq<Byte> :=
    IOREC + [119, 114, 97, 112, 112, 101, 100, 45, 98, 108, 111, 98, 45, 107, 101, 121, 58, 118, 49]  // wrapped-blob-key:v1
  const RETENTION_STATE_AAD_V1: seq<Byte> :=
    IOREC + [114, 101, 116, 101, 110, 116, 105, 111, 110, 45, 115, 116, 97, 116, 101, 58, 118, 49]    // retention-state:v1
  const BLOB_AAD_V1: seq<Byte> := IOREC + [98, 108, 111, 98, 58, 118, 49, 58]                   // blob:v1:

  function Prefixed(domain: seq<Byte>, value: seq<Byte>): seq<Byte> {
    domain + Word(Length(value)) + value
  }

  function Aad(c: Context): seq<Byte> {
    match c
    case LegacyEvent => EVENT_AAD_V1
    case Event(run, sequence) => Prefixed(EVENT_AAD_V2, run) + Word(sequence)
    case EventBlock(run, first, count, size, digest) =>
      Prefixed(EVENT_BLOCK_AAD_V1, run) + Word(first) + Word(count) + Word(size) + digest
    case Blob(hash) => BLOB_AAD_V1 + hash
    case WrappedKey(name) => Prefixed(WRAPPED_KEY_AAD_V1, name)
    case RetentionState => RETENTION_STATE_AAD_V1
    case ManifestTag(canonical) => Prefixed(MANIFEST_AAD_V1, canonical)
  }

  // ------------------------------------------------------------- decoding

  function ToU64(s: seq<Byte>): U64 {
    if FromBigEndian(s) < U64_LIMIT then FromBigEndian(s) else 0
  }

  /** Reads a context back from its associated data. */
  function Decode(aad: seq<Byte>): Option<Context> {
    if |aad| < 14 then None
    else if aad[6] == 98 then Some(Blob(aad[14..]))
    else if aad[6] == 114 then Some(RetentionState)
    else if aad[6] == 109 then if |aad| < 25 then None else Some(ManifestTag(aad[25..]))
    else if aad[6] == 119 then if |aad| < 33 then None else Some(WrappedKey(aad[33..]))
    else if aad[11] == 45 then
      var n := |aad|;
      if n < 84 then None
      else Some(EventBlock(aad[28..n - 56], ToU64(aad[n - 56..n - 48]), ToU64(aad[n - 48..n - 40]),
                           ToU64(aad[n - 40..n - 32]), aad[n - 32..]))
    else if aad[13] == 49 then Some(LegacyEvent)
    else
      var n := |aad|;
      if n < 30 then None else Some(Event(aad[22..n - 8], ToU64(aad[n - 8..])))
  }

  lemma {:induction false} EventDecodes(run: seq<Byte>, sequence: U64)
    ensures Decode(Aad(Event(run, sequence))) == Some(Event(run, sequence))
  {
    var aad := Aad(Event(run, sequence));
    var n := |aad|;
    assert aad[22..n - 8] == run;
    assert aad[n - 8..] == Word(sequence);
  }

  lemma {:induction false} EventBlockDecodes(c: Context)
    requires c.EventBlock? && ValidContext(c)
    ensures Decode(Aad(c)) == Some(c)
  {
    var aad := Aad(c);
    var n := |aad|;
    assert aad[28..n - 56] == c.run;
    assert aad[n - 56..n - 48] == Word(c.first);
    assert aad[n - 48..n - 40] == Word(c.count);
    assert aad[n - 40..n - 32] == Word(c.size);
    assert aad[n - 32..] == c.digest;
  }

  lemma {:induction false} AadDecodes(c: Context)
    requires ValidContext(c)
    ensures Decode(Aad(c)) == Some(c)
  {
    match c
    case LegacyEvent =>
    case Event(run, sequence) => EventDecodes(run, sequence);
    case EventBlock(_, _, _, _, _) => EventBlockDecodes(c);
    case Blob(hash) => assert Aad(c)[14..] == hash;
    case WrappedKey(name) => assert Aad(c)[33..] == name;
    case RetentionState =>
    case ManifestTag(canonical) => assert Aad(c)[25..] == canonical;
  }

  /** All encodings are injective, and no two domains ever meet. */
  lemma {:induction false} AadIsInjective(c: Context, d: Context)
    requires ValidContext(c) && ValidContext(d) && Aad(c) == Aad(d)
    ensures c == d
  {
    AadDecodes(c);
    AadDecodes(d);
  }

  // The builders, as the source fills its buffers: what each writes names its context.

  method EventAadV2(run: seq<Byte>, sequence: U64) returns (aad: seq<Byte>)
    ensures aad == Aad(Event(run, sequence)) && Decode(aad) == Some(Event(run, sequence))
  {
    aad := EVENT_AAD_V2;
    aad := aad + Word(Length(run));
    aad := aad + run;
    aad := aad + Word(sequence);
    AadDecodes(Event(run, sequence));
  }

  method EventBlockAadV1(run: seq<Byte>, first: U64, count: U64, size: U64, digest: seq<Byte>)
    returns (aad: seq<Byte>)
    ensures var c := EventBlock(run, first, count, size, digest);
      aad == Aad(c) && (ValidContext(c) ==> Decode(aad) == Some(c))
  {
    aad := EVENT_BLOCK_AAD_V1;
    aad := aad + Word(Length(run));
    aad := aad + run;
    aad := aad + Word(first);
    aad := aad + Word(count);
    aad := aad + Word(size);
    aad := aad + digest;
    if |digest| == 32 {
      AadDecodes(EventBlock(run, first, count, size, digest));
    }
  }

  method LengthPrefixedAad(domain: seq<Byte>, value: seq<Byte>) returns (aad: seq<Byte>)
    ensures domain == WRAPPED_KEY_AAD_V1 ==> aad == Aad(WrappedKey(value)) && Decode(aad) == Some(WrappedKey(value))
    ensures domain == MANIFEST_AAD_V1 ==> aad == Aad(ManifestTag(value)) && Decode(aad) == Some(ManifestTag(value))
  {
    aad := domain;
    aad := aad + Word(Length(value));
    aad := aad + value;
    AadDecodes(WrappedKey(value));
    AadDecodes(ManifestTag(value));
  }

  // ------------------------------------------------- sealing and framing

  type Key = seq<Byte>
  const NONCE_BYTES: nat := 24
  const TAG_BYTES: nat := 16

  datatype Aead = Aead(
    encrypt: (Key, seq<Byte>, seq<Byte>, seq<Byte>) -> seq<Byte>,         // key, nonce, plaintext, aad
    decrypt: (Key, seq<Byte>, seq<Byte>, seq<Byte>) -> Option<seq<Byte>>)  // key, nonce, ciphertext, aad

  /** Correct, and authentic with respect to the associated data. */
  ghost predicate Ideal(aead: Aead) {
    && (forall k, n, p, x :: |aead.encrypt(k, n, p, x)| >= TAG_BYTES)
    && (forall k, n, p, x, y ::
      aead.decrypt(k, n, aead.encrypt(k, n, p, x), y) == if x == y then Some(p) else None)
  }

  /** Associated data in front, in a form no other starts with: its length in ones, a zero, its bytes. */
  function Header(x: seq<Byte>): seq<Byte> {
    seq(TAG_BYTES, i => 0) + seq(|x|, i => 1) + [0] + x
  }

  function Keyless(): Aead {
    Aead((k: Key, n: seq<Byte>, p: seq<Byte>, x: seq<Byte>) => Header(x) + p,
         (k: Key, n: seq<Byte>, c: seq<Byte>, x: seq<Byte>) =>
           if Header(x) <= c then Some(c[|Header(x)|..]) else None)
  }

  lemma {:induction false} HeadersDiffer(x: seq<Byte>, y: seq<Byte>, p: seq<Byte>)
    requires Header(y) <= Header(x) + p
    ensures x == y
  {
    var c := Header(x) + p;
    assert forall i :: 0 <= i < |Header(y)| ==> Header(y)[i] == c[i];
    assert c[TAG_BYTES + |x|] == 0 && Header(y)[TAG_BYTES + |y|] == 0;
    assert forall i :: TAG_BYTES <= i < TAG_BYTES + |x| ==> c[i] == 1;
    assert forall i :: TAG_BYTES <= i < TAG_BYTES + |y| ==> Header(y)[i] == 1;
    assert |x| == |y|;
    forall i | 0 <= i < |x| ensures x[i] == y[i] {
      assert c[TAG_BYTES + |x| + 1 + i] == x[i] && Header(y)[TAG_BYTES + |y| + 1 + i] == y[i];
    }
  }

  /** The assumption can be met: sealing that hides nothing still binds the associated data. */
  lemma {:induction false} SomeAeadIsIdeal()
    ensures Ideal(Keyless())
  {
    var aead := Keyless();
    forall k, n, p, x, y
      ensures aead.decrypt(k, n, aead.encrypt(k, n, p, x), y) == if x == y then Some(p) else None
    {
      if Header(y) <= Header(x) + p {
        HeadersDiffer(x, y, p);
      }
      assert (Header(x) + p)[|Header(x)|..] == p;
      assert Header(x) <= Header(x) + p;
    }
  }

  datatype Error =
    | InvalidFraming | AuthenticationFailed | InvalidKeyContext | InvalidKeyLength
    | MissingRunId | MissingSequence | ContextMismatch | UnsupportedVersion

  // Frame magics: IORECBL1, IORECKY1, IORECRS1, IORECEB1.
  const MAGIC_HEAD: seq<Byte> := [73, 79, 82, 69, 67]
  const BLOB_MAGIC: seq<Byte> := MAGIC_HEAD + [66, 76, 49]
  const WRAPPED_KEY_MAGIC: seq<Byte> := MAGIC_HEAD + [75, 89, 49]
  const RETENTION_STATE_MAGIC: seq<Byte> := MAGIC_HEAD + [82, 83, 49]
  const EVENT_BLOCK_MAGIC: seq<Byte> := MAGIC_HEAD + [69, 66, 49]

  /** The contexts whose ciphertexts are stored as magic, nonce, ciphertext. */
  predicate Framed(c: Context) { c.Blob? || c.WrappedKey? || c.RetentionState? || c.EventBlock? }

  function Magic(c: Context): (m: seq<Byte>)
    requires Framed(c)
    ensures |m| == 8
  {
    match c
    case Blob(_) => BLOB_MAGIC
    case WrappedKey(_) => WRAPPED_KEY_MAGIC
    case RetentionState => RETENTION_STATE_MAGIC
    case EventBlock(_, _, _, _, _) => EVENT_BLOCK_MAGIC
  }

  /** `validate_key_context` */
  predicate ValidKeyName(name: seq<Byte>) {
    0 < |name| <= 64 && forall b :: b in name ==> 97 <= b <= 122 || b == 95
  }

  /** `encrypt_blob`, `encrypt_event_block`, `encrypt_retention_state` and the
      wrapping half of `generate_wrapped_data_key`. */
  function Encrypt(aead: Aead, key: Key, nonce: seq<Byte>, plaintext: seq<Byte>, c: Context): Result<seq<Byte>, Error>
    requires Framed(c) && |nonce| == NONCE_BYTES
  {
    if c.WrappedKey? && !ValidKeyName(c.name) then Err(InvalidKeyContext)
    else Ok(Magic(c) + nonce + aead.encrypt(key, nonce, plaintext, Aad(c)))
  }

  /** The matching decryptions: framing first, then the AEAD. */
  function Decrypt(aead: Aead, key: Key, encoded: seq<Byte>, c: Context): Result<seq<Byte>, Error>
    requires Framed(c)
  {
    if c.WrappedKey? && !ValidKeyName(c.name) then Err(InvalidKeyContext)
    else if |encoded| < 8 + NONCE_BYTES + TAG_BYTES || encoded[..8] != Magic(c) then Err(InvalidFraming)
    else
      var plain := aead.decrypt(key, encoded[8..8 + NONCE_BYTES], encoded[8 + NONCE_BYTES..], Aad(c));
      if plain.None? then Err(AuthenticationFailed)
      else if c.WrappedKey? && |plain.value| != 32 then Err(InvalidKeyLength)
      else Ok(plain.value)
  }

  /**
  What was sealed for one context opens for exactly that context: any change of
  run ID, sequence, count, size, digest, hash, class name or frame type is
  rejected, and the right context returns the plaintext.
  */
  lemma {:induction false} OpensExactlyInItsContext(
      aead: Aead, key: Key, nonce: seq<Byte>, plaintext: seq<Byte>, c: Context, d: Context)
    requires Ideal(aead) && Framed(c) && Framed(d) && ValidContext(c) && ValidContext(d)
    requires |nonce| == NONCE_BYTES && (c.WrappedKey? ==> ValidKeyName(c.name) && |plaintext| == 32)
    ensures Encrypt(aead, key, nonce, plaintext, c).Ok?
    ensures var plain := Decrypt(aead, key, Encrypt(aead, key, nonce, plaintext, c).value, d);
      if c == d then plain == Ok(plaintext) else plain.Err?
  {
    var encoded := Encrypt(aead, key, nonce, plaintext, c).value;
    var ciphertext := aead.encrypt(key, nonce, plaintext, Aad(c));
    assert encoded[..8] == Magic(c);
    assert encoded[8..8 + NONCE_BYTES] == nonce;
    assert encoded[8 + NONCE_BYTES..] == ciphertext;
    assert aead.decrypt(key, nonce, ciphertext, Aad(d)) == if Aad(c) == Aad(d) then Some(plaintext) else None;
    if Aad(c) == Aad(d) {
      AadIsInjective(c, d);
    }
  }

  // -------------------------------------------------------- event records

  datatype EventRecord = EventRecord(
    version: nat, run: Option<seq<Byte>>, sequence: Option<U64>, nonce: seq<Byte>, ciphertext: seq<Byte>)

  function EncryptEventRecord(aead: Aead, key: Key, nonce: seq<Byte>, plaintext: seq<Byte>,
                              run: seq<Byte>, sequence: U64): EventRecord
  {
    EventRecord(2, Some(run), Some(sequence), nonce,
                aead.encrypt(key, nonce, plaintext, Aad(Event(run, sequence))))
  }

  /** `decrypt_event`; `envelope` is the run ID and sequence the plaintext
      itself carries, as far as it parses. */
  function DecryptEvent(aead: Aead, key: Key, r: EventRecord,
                        envelope: seq<Byte> -> (Option<seq<Byte>>, Option<U64>)): Result<seq<Byte>, Error>
  {
    if r.version == 1 then
      var plain := aead.decrypt(key, r.nonce, r.ciphertext, Aad(LegacyEvent));
      if plain.None? then Err(AuthenticationFailed) else Ok(plain.value)
    else if r.version == 2 then
      if r.run.None? then Err(MissingRunId)
      else if r.sequence.None? then Err(MissingSequence)
      else
        var plain := aead.decrypt(key, r.nonce, r.ciphertext, Aad(Event(r.run.value, r.sequence.value)));
        if plain.None? then Err(AuthenticationFailed)
        else if envelope(plain.value) != (r.run, r.sequence) then Err(ContextMismatch)
        else Ok(plain.value)
    else Err(UnsupportedVersion)
  }

  /**
  A stored event opens exactly when its version, run ID and sequence are the
  ones it was sealed with and its plaintext agrees with them.
  */
  lemma {:induction false} EventOpensExactlyInItsContext(
      aead: Aead, key: Key, nonce: seq<Byte>, plaintext: seq<Byte>, run: seq<Byte>, sequence: U64,
      envelope: seq<Byte> -> (Option<seq<Byte>>, Option<U64>), presented: EventRecord)
    requires Ideal(aead)
    requires var stored := EncryptEventRecord(aead, key, nonce, plaintext, run, sequence);
      presented.nonce == stored.nonce && presented.ciphertext == stored.ciphertext
    ensures var stored := EncryptEventRecord(aead, key, nonce, plaintext, run, sequence);
      DecryptEvent(aead, key, presented, envelope).Ok? <==>
        presented == stored && envelope(plaintext) == (Some(run), Some(sequence))
    ensures DecryptEvent(aead, key, presented, envelope).Ok? ==>
      DecryptEvent(aead, key, presented, envelope).value == plaintext
  {
    var sealedFor := Event(run, sequence);
    if presented.version == 1 {
      if Aad(LegacyEvent) == Aad(sealedFor) { AadIsInjective(LegacyEvent, sealedFor); }
    } else if presented.version == 2 && presented.run.Some? && presented.sequence.Some? {
      var claimed := Event(presented.run.value, presented.sequence.value);
      if Aad(claimed) == Aad(sealedFor) { AadIsInjective(claimed, sealedFor); }
    }
  }
}
