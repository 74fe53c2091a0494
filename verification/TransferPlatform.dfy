/**
 A platform with the laws of `Transfer.LawfulPlatform`, around any SHA-256: what the transfer round trip
 assumes of cryptography and of the JSON codec can be met.
 */
module TransferPlatform {
  import opened Prelude
  import opened Encodings
  import opened Hpke
  import opened Transfer

  function OfBytes(b: Bytes): Tree {
    OfSeq(b, (x: byte) => Leaf(x as int))
  }

  function OfName(n: Name): Tree {
    match n
    case Application => Leaf(0)
    case Model => Leaf(1)
    case Corpus => Leaf(2)
    case SignatureBundle => Leaf(3)
    case ActivationRequest => Leaf(4)
    case OtherName(t) => Pair(Leaf(5), OfString(t))
  }

  function OfMediaType(m: MediaType): Tree {
    match m
    case OciImage => Leaf(0)
    case EvyModel => Leaf(1)
    case EvyCorpus => Leaf(2)
    case EvySignatures => Leaf(3)
    case EvyActivationRequest => Leaf(4)
    case PlainManifest => Leaf(5)
    case EncryptedManifest => Leaf(6)
    case OtherType(t) => Pair(Leaf(7), OfString(t))
  }

  function OfVersion(v: Version): Tree {
    match v
    case V1 => Leaf(0)
    case V2 => Leaf(1)
    case OtherVersion(t) => Pair(Leaf(2), OfString(t))
  }

  function OfAlgorithm(a: Algorithm): Tree {
    match a
    case HpkeX25519Aes256Gcm => Leaf(0)
    case Aes256Gcm => Leaf(1)
    case OtherAlgorithm(t) => Pair(Leaf(2), OfString(t))
  }

  function OfPath(p: Path): Tree {
    match p
    case Layout => Leaf(0)
    case Index => Leaf(1)
    case SignatureFile => Leaf(2)
    case Blob(h) => Pair(Leaf(0), OfString(h))
    case OtherPath(t) => Pair(Leaf(1), OfString(t))
  }

  function OfDigest(d: Digest): Tree {
    match d
    case Sha256(h) => Pair(Leaf(0), OfString(h))
    case OtherDigest(t) => Pair(Leaf(1), OfString(t))
  }

  function OfIdentity(i: Identity): Tree {
    Pair(OfString(i.mediaId), Pair(OfString(i.eventId), Pair(OfString(i.siteId),
      Pair(OfInt(i.sequence), OfString(i.classification)))))
  }

  function OfLayerAad(a: LayerAad): Tree {
    Pair(OfIdentity(a.identity), Pair(OfName(a.artifact), Pair(OfMediaType(a.mediaType),
      Pair(OfInt(a.ordinal), OfDigest(a.plaintextDigest)))))
  }

  function OfWrapAad(a: WrapAad): Tree {
    Pair(OfIdentity(a.identity), OfString(a.recipientKeyId))
  }

  function OfEncryption(e: Encryption): Tree {
    Pair(OfAlgorithm(e.algorithm), Pair(OfBytes(e.nonce), Pair(OfDigest(e.plaintextDigest),
      Pair(OfInt(e.plaintextSize), OfLayerAad(e.aad)))))
  }

  function OfArtifact(a: Artifact): Tree {
    Pair(Pair(OfName(a.name), Pair(OfMediaType(a.mediaType), Pair(OfDigest(a.digest), Pair(OfInt(a.size), OfPath(a.path))))),
         if a.encryption.Some? then Pair(Leaf(0), OfEncryption(a.encryption.value)) else Leaf(0))
  }

  function OfRecipient(r: Recipient): Tree {
    Pair(OfString(r.siteId), Pair(OfString(r.keyId), Pair(OfBytes(r.encapsulated), Pair(OfBytes(r.wrapped), OfWrapAad(r.aad)))))
  }

  function OfEnvelope(e: Envelope): Tree {
    Pair(OfAlgorithm(e.algorithm), Pair(OfBytes(e.info), OfRecipient(e.recipient)))
  }

  function OfManifest(m: Manifest): Tree {
    Pair(OfVersion(m.version), Pair(OfMediaType(m.mediaType), Pair(OfIdentity(m.identity),
      Pair(if m.envelope.Some? then Pair(Leaf(0), OfEnvelope(m.envelope.value)) else Leaf(0),
           OfSeq(m.artifacts, (a: Artifact) => OfArtifact(a))))))
  }

  function OfRecord(r: Record): Tree {
    match r
    case LayoutRecord(v) => Pair(Leaf(0), OfVersion(v))
    case IndexRecord(t, d, size) => Pair(Leaf(1), Pair(OfMediaType(t), Pair(OfDigest(d), OfInt(size))))
    case ManifestRecord(m) => Pair(Leaf(2), OfManifest(m))
    case LayerAadRecord(a) => Pair(Leaf(3), OfLayerAad(a))
    case WrapAadRecord(a) => Pair(Leaf(4), OfWrapAad(a))
  }

  lemma OfBytesIsInjective(a: Bytes, b: Bytes)
    ensures OfBytes(a) == OfBytes(b) ==> a == b
  {
    if OfBytes(a) == OfBytes(b) {
      OfSeqIsInjective(a, b, (x: byte) => Leaf(x as int));
    }
  }

  /** The fixed texts and the free ones beside them. */
  lemma WordsAreInjective()
    ensures forall a, b :: OfString(a) == OfString(b) ==> a == b
    ensures forall a, b :: OfName(a) == OfName(b) ==> a == b
    ensures forall a, b :: OfMediaType(a) == OfMediaType(b) ==> a == b
    ensures forall a, b :: OfVersion(a) == OfVersion(b) ==> a == b
    ensures forall a, b :: OfAlgorithm(a) == OfAlgorithm(b) ==> a == b
    ensures forall a, b :: OfPath(a) == OfPath(b) ==> a == b
    ensures forall a, b :: OfDigest(a) == OfDigest(b) ==> a == b
  {
    forall a, b ensures OfString(a) == OfString(b) ==> a == b {
      OfStringIsInjective(a, b);
    }
  }

  lemma OfIdentityIsInjective(a: Identity, b: Identity)
    ensures OfIdentity(a) == OfIdentity(b) ==> a == b
  {
    WordsAreInjective();
  }

  lemma OfLayerAadIsInjective(a: LayerAad, b: LayerAad)
    ensures OfLayerAad(a) == OfLayerAad(b) ==> a == b
  {
    WordsAreInjective();
    OfIdentityIsInjective(a.identity, b.identity);
  }

  lemma OfWrapAadIsInjective(a: WrapAad, b: WrapAad)
    ensures OfWrapAad(a) == OfWrapAad(b) ==> a == b
  {
    OfStringIsInjective(a.recipientKeyId, b.recipientKeyId);
    OfIdentityIsInjective(a.identity, b.identity);
  }

  lemma OfEncryptionIsInjective(a: Encryption, b: Encryption)
    ensures OfEncryption(a) == OfEncryption(b) ==> a == b
  {
    WordsAreInjective();
    OfBytesIsInjective(a.nonce, b.nonce);
    OfLayerAadIsInjective(a.aad, b.aad);
  }

  lemma OfArtifactIsInjective(a: Artifact, b: Artifact)
    ensures OfArtifact(a) == OfArtifact(b) ==> a == b
  {
    WordsAreInjective();
    if a.encryption.Some? && b.encryption.Some? {
      OfEncryptionIsInjective(a.encryption.value, b.encryption.value);
    }
  }

  lemma OfRecipientIsInjective(a: Recipient, b: Recipient)
    ensures OfRecipient(a) == OfRecipient(b) ==> a == b
  {
    WordsAreInjective();
    OfBytesIsInjective(a.encapsulated, b.encapsulated);
    OfBytesIsInjective(a.wrapped, b.wrapped);
    OfWrapAadIsInjective(a.aad, b.aad);
  }

  lemma OfEnvelopeIsInjective(a: Envelope, b: Envelope)
    ensures OfEnvelope(a) == OfEnvelope(b) ==> a == b
  {
    WordsAreInjective();
    OfBytesIsInjective(a.info, b.info);
    OfRecipientIsInjective(a.recipient, b.recipient);
  }

  lemma OfArtifactsIsInjective(a: seq<Artifact>, b: seq<Artifact>)
    ensures OfSeq(a, (x: Artifact) => OfArtifact(x)) == OfSeq(b, (x: Artifact) => OfArtifact(x)) ==> a == b
  {
    var f := (x: Artifact) => OfArtifact(x);
    if OfSeq(a, f) == OfSeq(b, f) {
      forall x, y ensures f(x) == f(y) ==> x == y {
        OfArtifactIsInjective(x, y);
      }
      OfSeqIsInjective(a, b, f);
    }
  }

  lemma OfManifestIsInjective(a: Manifest, b: Manifest)
    ensures OfManifest(a) == OfManifest(b) ==> a == b
  {
    WordsAreInjective();
    OfIdentityIsInjective(a.identity, b.identity);
    if a.envelope.Some? && b.envelope.Some? {
      OfEnvelopeIsInjective(a.envelope.value, b.envelope.value);
    }
    OfArtifactsIsInjective(a.artifacts, b.artifacts);
  }

  lemma OfRecordIsInjective(a: Record, b: Record)
    ensures OfRecord(a) == OfRecord(b) ==> a == b
  {
    WordsAreInjective();
    if a.ManifestRecord? && b.ManifestRecord? {
      OfManifestIsInjective(a.manifest, b.manifest);
    } else if a.LayerAadRecord? && b.LayerAadRecord? {
      OfLayerAadIsInjective(a.layer, b.layer);
    } else if a.WrapAadRecord? && b.WrapAadRecord? {
      OfWrapAadIsInjective(a.wrap, b.wrap);
    }
  }

  function Encode(r: Record): Bytes {
    Text(OfRecord(r), 0 as byte, 1 as byte)
  }

  ghost function Decode(b: Bytes): Option<Record> {
    if exists r :: Encode(r) == b then (var r :| Encode(r) == b; Some(r)) else None
  }

  lemma DecodeInvertsEncode(r: Record)
    ensures Decode(Encode(r)) == Some(r)
  {
    var s := Decode(Encode(r)).value;
    TextIsInjective(OfRecord(r), OfRecord(s), 0 as byte, 1 as byte);
    OfRecordIsInjective(r, s);
  }

  /** Sealing appends sixteen bytes and unsealing takes them away; every exchange agrees. */
  function Trivial(): Primitives {
    Primitives((k, m) => [], (k, i, n) => [], s => Zeros(32), (s, k) => [], (k, n, m, a) => m + Zeros(16),
               (k, n, c, a) => if |c| >= 16 then Some(c[..|c| - 16]) else None)
  }

  lemma TrivialIsLawful()
    ensures Lawful(Trivial())
  {
    var p := Trivial();
    forall k, n, m, a ensures p.unseal(k, n, p.seal(k, n, m, a), a) == Some(m) {
      assert (m + Zeros(16))[..|m|] == m;
    }
  }

  /** Around any function into hexadecimal digests some platform is lawful. */
  lemma LawfulPlatformExists(sha: Bytes -> string)
    requires forall m :: HexDigest(sha(m))
    ensures exists p: Platform :: LawfulPlatform(p) && p.sha == sha
  {
    var p := Platform(Trivial(), sha, r => Encode(r), b => Decode(b));
    TrivialIsLawful();
    forall r ensures p.decode(p.encode(r)) == Some(r) {
      DecodeInvertsEncode(r);
    }
    assert LawfulPlatform(p);
  }
}
