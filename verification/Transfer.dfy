/**
 Site-bound encrypted transfer sets: export, verification and decryption. A transfer set is a map from
 paths to contents, its blobs named by their SHA-256. Text the format fixes (artifact names, media
 types, versions, algorithms) is a constructor; any other text in its place is the last constructor.
 */
module Transfer {
  import opened Prelude
  import opened Identifiers
  import opened Hpke

  datatype Name = Application | Model | Corpus | SignatureBundle | ActivationRequest | OtherName(text: string)

  datatype MediaType =
    | OciImage | EvyModel | EvyCorpus | EvySignatures | EvyActivationRequest
    | PlainManifest | EncryptedManifest | OtherType(text: string)

  datatype Version = V1 | V2 | OtherVersion(text: string)

  datatype Algorithm = HpkeX25519Aes256Gcm | Aes256Gcm | OtherAlgorithm(text: string)

  datatype Path = Layout | Index | SignatureFile | Blob(hex: string) | OtherPath(text: string)

  datatype Digest = Sha256(hex: string) | OtherDigest(text: string)

  datatype Identity = Identity(mediaId: string, eventId: string, siteId: string, sequence: int, classification: string)

  datatype LayerAad = LayerAad(
    identity: Identity, artifact: Name, mediaType: MediaType, ordinal: int, plaintextDigest: Digest)

  datatype WrapAad = WrapAad(identity: Identity, recipientKeyId: string)

  datatype Encryption = Encryption(
    algorithm: Algorithm, nonce: Bytes, plaintextDigest: Digest, plaintextSize: int, aad: LayerAad)

  datatype Artifact = Artifact(
    name: Name, mediaType: MediaType, digest: Digest, size: int, path: Path, encryption: Option<Encryption>)

  datatype Recipient = Recipient(siteId: string, keyId: string, encapsulated: Bytes, wrapped: Bytes, aad: WrapAad)

  datatype Envelope = Envelope(algorithm: Algorithm, info: Bytes, recipient: Recipient)

  datatype Manifest = Manifest(
    version: Version, mediaType: MediaType, identity: Identity, envelope: Option<Envelope>, artifacts: seq<Artifact>)

  /** The JSON records that are put into bytes. */
  datatype Record =
    | LayoutRecord(version: Version)
    | IndexRecord(mediaType: MediaType, digest: Digest, size: int)
    | ManifestRecord(manifest: Manifest)
    | LayerAadRecord(layer: LayerAad)
    | WrapAadRecord(wrap: WrapAad)

  /** The cryptography underneath, SHA-256 in hexadecimal, and the JSON encoder and decoder. */
  datatype Platform = Platform(
    crypto: Primitives, sha: Bytes -> string, encode: Record -> Bytes, decode: Bytes -> Option<Record>)

  ghost predicate LawfulPlatform(p: Platform) {
    && Lawful(p.crypto)
    && (forall m :: HexDigest(p.sha(m)))
    && forall r :: p.decode(p.encode(r)) == Some(r)
  }

  predicate HexDigest(hex: string) {
    |hex| == 64 && forall i :: 0 <= i < 64 ==> LowerHex(hex[i])
  }

  predicate DigestOk(d: Digest) {
    d.Sha256? && HexDigest(d.hex)
  }

  type Files = map<Path, Bytes>

  const NAMES: seq<Name> := [Application, Model, Corpus, SignatureBundle, ActivationRequest]
  const REQUIRED: set<Name> := {Application, Model, Corpus, SignatureBundle, ActivationRequest}
  const LAYOUT := LayoutRecord(V1)
  const HPKE_INFO_TEXT := "evy-transfer-content-key-v1"

  function MediaTypeOf(n: Name): MediaType {
    match n
    case Application => OciImage
    case Model => EvyModel
    case Corpus => EvyCorpus
    case SignatureBundle => EvySignatures
    case ActivationRequest => EvyActivationRequest
    case OtherName(t) => OtherType(t)
  }

  function HpkeInfo(): Bytes {
    Ascii(HPKE_INFO_TEXT)
  }

  // ---------------------------------------------------------------- manifest rules

  predicate IdentityOk(i: Identity) {
    && WellFormedId(i.mediaId) && WellFormedId(i.classification) && WellFormedId(i.eventId) && WellFormedId(i.siteId)
    && i.sequence >= 1
  }

  /** `_validate_envelope` */
  predicate EnvelopeOk(e: Envelope, i: Identity) {
    && e.algorithm == HpkeX25519Aes256Gcm && e.info == HpkeInfo()
    && WellFormedId(e.recipient.siteId) && WellFormedId(e.recipient.keyId)
    && e.recipient.siteId == i.siteId
    && |e.recipient.encapsulated| == 32 && |e.recipient.wrapped| == 48
    && e.recipient.aad == WrapAad(i, e.recipient.keyId)
  }

  /** `_validate_layer_encryption` */
  predicate LayerOk(a: Artifact, i: Identity, ordinal: int) {
    && a.encryption.Some?
    && var e := a.encryption.value;
       && e.algorithm == Aes256Gcm && |e.nonce| == 12 && DigestOk(e.plaintextDigest) && e.plaintextSize >= 0
       && e.aad == LayerAad(i, a.name, a.mediaType, ordinal, e.plaintextDigest)
  }

  predicate ArtifactOk(m: Manifest, k: nat)
    requires k < |m.artifacts|
  {
    var a := m.artifacts[k];
    && a.mediaType == MediaTypeOf(a.name) && DigestOk(a.digest) && a.size >= 0
    && if m.version == V2 then LayerOk(a, m.identity, k) else a.encryption.None?
  }

  predicate NamesOk(m: Manifest) {
    |m.artifacts| == 5 && forall k :: 0 <= k < 5 ==> m.artifacts[k].name == NAMES[k]
  }

  function NonceOf(a: Artifact): Bytes {
    if a.encryption.Some? then a.encryption.value.nonce else []
  }

  predicate HeadOk(m: Manifest) {
    && IdentityOk(m.identity)
    && match m.version
       case V1 => m.mediaType == PlainManifest && m.envelope.None?
       case V2 => m.mediaType == EncryptedManifest && m.envelope.Some? && EnvelopeOk(m.envelope.value, m.identity)
       case OtherVersion(_) => false
  }

  /** No two of the first `n` artifacts share a nonce. */
  ghost predicate NoncesDistinct(artifacts: seq<Artifact>, n: nat)
    requires n <= |artifacts|
  {
    forall i, j :: 0 <= i < j < n ==> NonceOf(artifacts[i]) != NonceOf(artifacts[j])
  }

  /** `_validate_manifest` */
  ghost predicate ManifestOk(m: Manifest) {
    && HeadOk(m) && NamesOk(m)
    && (forall k :: 0 <= k < |m.artifacts| ==> ArtifactOk(m, k))
    && (m.version == V2 ==> NoncesDistinct(m.artifacts, |m.artifacts|))
  }

  method CheckArtifacts(m: Manifest) returns (ok: bool)
    ensures ok <==>
            && (forall k :: 0 <= k < |m.artifacts| ==> ArtifactOk(m, k))
            && (m.version == V2 ==> NoncesDistinct(m.artifacts, |m.artifacts|))
  {
    var nonces: set<Bytes> := {};
    for k := 0 to |m.artifacts|
      invariant forall i :: 0 <= i < k ==> ArtifactOk(m, i)
      invariant m.version == V2 ==> NoncesDistinct(m.artifacts, k)
      invariant m.version == V2 ==> nonces == set i | 0 <= i < k :: NonceOf(m.artifacts[i])
    {
      if !ArtifactOk(m, k) {
        return false;
      }
      if m.version == V2 {
        if NonceOf(m.artifacts[k]) in nonces {
          return false;
        }
        nonces := nonces + {NonceOf(m.artifacts[k])};
      }
    }
    return true;
  }

  method ValidateManifest(m: Manifest) returns (ok: bool)
    ensures ok <==> ManifestOk(m)
  {
    if !NamesOk(m) || !HeadOk(m) {
      return false;
    }
    ok := CheckArtifacts(m);
  }

  // ---------------------------------------------------------------- verification

  datatype Governance = Governance(profileOk: Bytes -> bool, accepts: (Bytes, Bytes) -> bool)

  datatype Expectation = Expectation(
    eventId: string, siteId: string, classifications: set<string>, floor: int, used: seq<string>,
    verifier: Option<(Bytes, Bytes) -> bool>, requireSignature: bool,
    governance: Option<Governance>, requireGoverned: bool)

  /** A manifest and the digest the index names it by. */
  datatype Verified = Verified(manifest: Manifest, hex: string)

  /** The index names the manifest that is read. */
  predicate Indexed(p: Platform, files: Files, v: Verified) {
    && Layout in files && p.decode(files[Layout]) == Some(LAYOUT)
    && Index in files && HexDigest(v.hex) && Blob(v.hex) in files
    && p.decode(files[Index]) == Some(IndexRecord(v.manifest.mediaType, Sha256(v.hex), |files[Blob(v.hex)]|))
    && p.sha(files[Blob(v.hex)]) == v.hex
    && p.decode(files[Blob(v.hex)]) == Some(ManifestRecord(v.manifest))
    && p.encode(ManifestRecord(v.manifest)) == files[Blob(v.hex)]
  }

  predicate Expected(m: Manifest, e: Expectation) {
    && m.identity.eventId == e.eventId && m.identity.siteId == e.siteId
    && m.identity.classification in e.classifications
    && m.identity.sequence > e.floor
    && m.identity.mediaId !in e.used
  }

  /** The blob the artifact names is there and is what it says. */
  predicate Stored(p: Platform, files: Files, a: Artifact) {
    && a.digest.Sha256? && a.path == Blob(a.digest.hex) && a.path in files
    && |files[a.path]| == a.size && p.sha(files[a.path]) == a.digest.hex
  }

  predicate GovernedOk(files: Files, m: Manifest, e: Expectation)
    requires NamesOk(m)
  {
    e.requireGoverned ==>
      && e.governance.Some?
      && (m.version == V1 ==>
            m.artifacts[2].path in files && m.artifacts[3].path in files
            && e.governance.value.accepts(files[m.artifacts[2].path], files[m.artifacts[3].path]))
  }

  predicate SignatureOk(files: Files, bytes: Bytes, e: Expectation) {
    && (e.requireSignature ==> e.verifier.Some?)
    && (e.verifier.Some? ==> SignatureFile in files && e.verifier.value(bytes, files[SignatureFile]))
  }

  function ArtifactPaths(artifacts: seq<Artifact>): set<Path> {
    set i | 0 <= i < |artifacts| :: artifacts[i].path
  }

  function DeclaredFiles(files: Files, v: Verified): set<Path> {
    {Layout, Index, Blob(v.hex)} + ArtifactPaths(v.manifest.artifacts) + if SignatureFile in files then {SignatureFile} else {}
  }

  ghost predicate AllStored(p: Platform, files: Files, artifacts: seq<Artifact>) {
    forall k :: 0 <= k < |artifacts| ==> Stored(p, files, artifacts[k])
  }

  /** What `verify_transfer_set` accepts: nothing missing, nothing extra, everything bound to its digest. */
  ghost predicate Acceptable(p: Platform, files: Files, v: Verified, e: Expectation) {
    && WellFormedId(e.eventId) && WellFormedId(e.siteId)
    && Indexed(p, files, v) && ManifestOk(v.manifest) && Expected(v.manifest, e)
    && AllStored(p, files, v.manifest.artifacts)
    && GovernedOk(files, v.manifest, e)
    && SignatureOk(files, files[Blob(v.hex)], e)
    && files.Keys == DeclaredFiles(files, v)
  }

  lemma IndexedUnique(p: Platform, files: Files, v: Verified, w: Verified)
    requires Indexed(p, files, v) && Indexed(p, files, w)
    ensures v == w
  {
  }

  method ReadManifest(p: Platform, files: Files) returns (r: Option<Verified>)
    ensures r.Some? ==> Indexed(p, files, r.value)
    ensures r.None? ==> forall v :: !Indexed(p, files, v)
  {
    if Layout !in files || p.decode(files[Layout]) != Some(LAYOUT) || Index !in files {
      return None;
    }
    var index := p.decode(files[Index]);
    if index.None? || !index.value.IndexRecord? || !DigestOk(index.value.digest) {
      return None;
    }
    var hex := index.value.digest.hex;
    if Blob(hex) !in files {
      return None;
    }
    var bytes := files[Blob(hex)];
    if |bytes| != index.value.size || p.sha(bytes) != hex {
      return None;
    }
    var decoded := p.decode(bytes);
    if decoded.None? || !decoded.value.ManifestRecord? || decoded.value.manifest.mediaType != index.value.mediaType
       || p.encode(decoded.value) != bytes {
      return None;
    }
    return Some(Verified(decoded.value.manifest, hex));
  }

  method CheckBlobs(p: Platform, files: Files, artifacts: seq<Artifact>) returns (ok: bool, blobs: set<Path>)
    ensures ok <==> AllStored(p, files, artifacts)
    ensures ok ==> blobs == ArtifactPaths(artifacts)
  {
    blobs := {};
    for k := 0 to |artifacts|
      invariant blobs == ArtifactPaths(artifacts[..k])
      invariant forall i :: 0 <= i < k ==> Stored(p, files, artifacts[i])
    {
      if !Stored(p, files, artifacts[k]) {
        return false, blobs;
      }
      blobs := blobs + {artifacts[k].path};
    }
    assert artifacts[..|artifacts|] == artifacts;
    return true, blobs;
  }

  method VerifyTransferSet(p: Platform, files: Files, e: Expectation) returns (result: Option<Verified>)
    ensures result.Some? ==> Acceptable(p, files, result.value, e)
    ensures result.None? ==> forall v :: !Acceptable(p, files, v, e)
  {
    if !WellFormedId(e.eventId) || !WellFormedId(e.siteId) {
      return None;
    }
    var read := ReadManifest(p, files);
    if read.None? {
      return None;
    }
    var v := read.value;
    forall w | Acceptable(p, files, w, e) ensures w == v {
      IndexedUnique(p, files, w, v);
    }
    var valid := ValidateManifest(v.manifest);
    if !valid || !Expected(v.manifest, e) {
      return None;
    }
    var stored, blobs := CheckBlobs(p, files, v.manifest.artifacts);
    if !stored || !GovernedOk(files, v.manifest, e) || !SignatureOk(files, files[Blob(v.hex)], e) {
      return None;
    }
    var expected := {Layout, Index, Blob(v.hex)} + blobs + if SignatureFile in files then {SignatureFile} else {};
    if files.Keys != expected {
      return None;
    }
    return Some(v);
  }

  // ---------------------------------------------------------------- export

  datatype Destination = Destination(siteId: string, keyId: string, publicKey: Bytes)

  /** What `os.urandom` and key generation draw. */
  datatype Randomness = Randomness(contentKey: Bytes, ephemeral: Bytes, nonces: seq<Bytes>)

  predicate RandomnessOk(r: Randomness) {
    |r.contentKey| == 32 && |r.nonces| == 5 && forall k :: 0 <= k < 5 ==> |r.nonces[k]| == 12
  }

  datatype Policy = Policy(signer: Option<Bytes -> Bytes>, governance: Option<Governance>, requireGoverned: bool)

  predicate Exportable(artifacts: map<Name, Bytes>, i: Identity, d: Destination, policy: Policy) {
    && i.classification != "public" && IdentityOk(i)
    && WellFormedId(d.siteId) && WellFormedId(d.keyId) && d.siteId == i.siteId
    && artifacts.Keys == REQUIRED
    && (policy.requireGoverned ==>
          policy.governance.Some? && policy.governance.value.accepts(artifacts[Corpus], artifacts[SignatureBundle]))
  }

  /** One encrypted artifact: its ciphertext and its record. */
  function Layer(p: Platform, plaintext: Bytes, i: Identity, key: Bytes, nonce: Bytes, k: nat): (Bytes, Artifact)
    requires k < 5
  {
    var aad := LayerAad(i, NAMES[k], MediaTypeOf(NAMES[k]), k, Sha256(p.sha(plaintext)));
    var c := p.crypto.seal(key, nonce, plaintext, p.encode(LayerAadRecord(aad)));
    (c, Artifact(NAMES[k], MediaTypeOf(NAMES[k]), Sha256(p.sha(c)), |c|, Blob(p.sha(c)),
                 Some(Encryption(Aes256Gcm, nonce, Sha256(p.sha(plaintext)), |plaintext|, aad))))
  }

  function LayerOf(p: Platform, artifacts: map<Name, Bytes>, i: Identity, r: Randomness, k: nat): (Bytes, Artifact)
    requires artifacts.Keys == REQUIRED && RandomnessOk(r) && k < 5
  {
    Layer(p, artifacts[NAMES[k]], i, r.contentKey, r.nonces[k], k)
  }

  function Ciphertexts(p: Platform, artifacts: map<Name, Bytes>, i: Identity, r: Randomness): (c: seq<Bytes>)
    requires artifacts.Keys == REQUIRED && RandomnessOk(r)
    ensures |c| == 5 && forall k :: 0 <= k < 5 ==> c[k] == LayerOf(p, artifacts, i, r, k).0
  {
    seq(5, k requires 0 <= k < 5 => LayerOf(p, artifacts, i, r, k).0)
  }

  function Records(p: Platform, artifacts: map<Name, Bytes>, i: Identity, r: Randomness): (a: seq<Artifact>)
    requires artifacts.Keys == REQUIRED && RandomnessOk(r)
    ensures |a| == 5 && forall k :: 0 <= k < 5 ==> a[k] == LayerOf(p, artifacts, i, r, k).1
  {
    seq(5, k requires 0 <= k < 5 => LayerOf(p, artifacts, i, r, k).1)
  }

  function EnvelopeOf(p: Platform, i: Identity, d: Destination, r: Randomness): Envelope {
    var aad := WrapAad(i, d.keyId);
    var wrapped := Wrap(p.crypto, d.publicKey, r.contentKey, HpkeInfo(), p.encode(WrapAadRecord(aad)), r.ephemeral);
    Envelope(HpkeX25519Aes256Gcm, HpkeInfo(), Recipient(d.siteId, d.keyId, wrapped.0, wrapped.1, aad))
  }

  function ExportManifest(p: Platform, artifacts: map<Name, Bytes>, i: Identity, d: Destination, r: Randomness): Manifest
    requires artifacts.Keys == REQUIRED && RandomnessOk(r)
  {
    Manifest(V2, EncryptedManifest, i, Some(EnvelopeOf(p, i, d, r)), Records(p, artifacts, i, r))
  }

  /** Write each content under its own digest, in order. */
  function Blobs(p: Platform, contents: seq<Bytes>): Files {
    if contents == [] then map[]
    else Blobs(p, contents[..|contents| - 1])[Blob(p.sha(contents[|contents| - 1])) := contents[|contents| - 1]]
  }

  /** The files around a manifest: layout, index, manifest blob, signature. */
  function Wrapped(p: Platform, blobs: Files, m: Manifest, signer: Option<Bytes -> Bytes>): Files {
    var bytes := p.encode(ManifestRecord(m));
    var files := blobs[Blob(p.sha(bytes)) := bytes][Layout := p.encode(LAYOUT)]
      [Index := p.encode(IndexRecord(m.mediaType, Sha256(p.sha(bytes)), |bytes|))];
    if signer.Some? then files[SignatureFile := signer.value(bytes)] else files
  }

  function Exported(p: Platform, artifacts: map<Name, Bytes>, i: Identity, d: Destination, r: Randomness,
                    signer: Option<Bytes -> Bytes>): Files
    requires artifacts.Keys == REQUIRED && RandomnessOk(r)
  {
    Wrapped(p, Blobs(p, Ciphertexts(p, artifacts, i, r)), ExportManifest(p, artifacts, i, d, r), signer)
  }

  method EncryptLayers(p: Platform, artifacts: map<Name, Bytes>, i: Identity, r: Randomness)
    returns (blobs: Files, records: seq<Artifact>)
    requires artifacts.Keys == REQUIRED && RandomnessOk(r)
    ensures blobs == Blobs(p, Ciphertexts(p, artifacts, i, r)) && records == Records(p, artifacts, i, r)
  {
    blobs, records := map[], [];
    ghost var ciphertexts := Ciphertexts(p, artifacts, i, r);
    for ordinal := 0 to 5
      invariant blobs == Blobs(p, ciphertexts[..ordinal])
      invariant records == Records(p, artifacts, i, r)[..ordinal]
    {
      var layer := Layer(p, artifacts[NAMES[ordinal]], i, r.contentKey, r.nonces[ordinal], ordinal);
      assert layer == LayerOf(p, artifacts, i, r, ordinal);
      assert ciphertexts[..ordinal + 1][..ordinal] == ciphertexts[..ordinal];
      blobs := blobs[Blob(p.sha(layer.0)) := layer.0];
      records := records + [layer.1];
    }
    assert ciphertexts[..5] == ciphertexts;
  }

  method ExportEncryptedTransferSet(p: Platform, artifacts: map<Name, Bytes>, i: Identity, d: Destination,
                                    policy: Policy, r: Randomness, outputExists: bool) returns (result: Option<Files>)
    requires RandomnessOk(r)
    ensures result.Some? <==>
            && !outputExists && Exportable(artifacts, i, d, policy)
            && (policy.signer.Some? ==>
                  policy.signer.value(p.encode(ManifestRecord(ExportManifest(p, artifacts, i, d, r)))) != [])
    ensures result.Some? ==> result.value == Exported(p, artifacts, i, d, r, policy.signer)
  {
    if !Exportable(artifacts, i, d, policy) || outputExists {
      return None;
    }
    var envelope := EnvelopeOf(p, i, d, r);
    var blobs, records := EncryptLayers(p, artifacts, i, r);
    var manifest := Manifest(V2, EncryptedManifest, i, Some(envelope), records);
    var bytes := p.encode(ManifestRecord(manifest));
    var files := blobs[Blob(p.sha(bytes)) := bytes];
    files := files[Layout := p.encode(LAYOUT)];
    files := files[Index := p.encode(IndexRecord(EncryptedManifest, Sha256(p.sha(bytes)), |bytes|))];
    if policy.signer.Some? {
      var signature := policy.signer.value(bytes);
      if signature == [] {
        return None;
      }
      files := files[SignatureFile := signature];
    }
    return Some(files);
  }

  // ---------------------------------------------------------------- decryption

  datatype ContractProfile = GovernedProfile | LegacyProfile

  /** One decrypted artifact as the record lists it. */
  datatype Listed = Listed(name: Name, mediaType: MediaType, digest: Digest, size: nat)

  datatype DecryptionRecord = DecryptionRecord(
    sourceManifest: Digest, eventId: string, siteId: string, sequence: int, profile: ContractProfile,
    artifacts: seq<Listed>)

  /** What decryption leaves: the contents under their artifact names, and the record beside them. */
  datatype Staged = Staged(record: DecryptionRecord, contents: seq<Bytes>)

  /** The content key the recipient recovers. */
  function ContentKey(p: Platform, m: Manifest, secret: Bytes): Option<Bytes> {
    if m.envelope.None? then None
    else
      var e := m.envelope.value;
      Unwrap(p.crypto, secret, e.recipient.encapsulated, e.recipient.wrapped, e.info,
             p.encode(WrapAadRecord(e.recipient.aad)))
  }

  /** What the artifact opens to under the content key, when it is what the manifest promised. */
  function Opened(p: Platform, files: Files, a: Artifact, key: Bytes): Option<Bytes> {
    if a.encryption.None? || a.path !in files then None
    else
      var e := a.encryption.value;
      var content := p.crypto.unseal(key, e.nonce, files[a.path], p.encode(LayerAadRecord(e.aad)));
      if content.Some? && Sha256(p.sha(content.value)) == e.plaintextDigest && |content.value| == e.plaintextSize
      then content else None
  }

  predicate Addressed(m: Manifest, siteId: string, keyId: string) {
    && WellFormedId(siteId) && WellFormedId(keyId)
    && m.identity.siteId == siteId
    && m.envelope.Some? && m.envelope.value.recipient.siteId == siteId && m.envelope.value.recipient.keyId == keyId
  }

  predicate GovernedContents(policy: Policy, contents: seq<Bytes>)
    requires |contents| == 5
  {
    policy.requireGoverned ==>
      && policy.governance.Some? && policy.governance.value.profileOk(contents[2])
      && policy.governance.value.accepts(contents[2], contents[3])
  }

  /** Every artifact opens, to these contents. */
  ghost predicate AllOpen(p: Platform, files: Files, artifacts: seq<Artifact>, key: Bytes, contents: seq<Bytes>) {
    && |contents| == |artifacts|
    && forall k :: 0 <= k < |artifacts| ==> Opened(p, files, artifacts[k], key) == Some(contents[k])
  }

  /** The recipient may decrypt the set, and these are its artifacts. */
  ghost predicate DecryptsTo(p: Platform, files: Files, m: Manifest, siteId: string, keyId: string, secret: Bytes,
                             policy: Policy, contents: seq<Bytes>) {
    && m.version == V2 && ManifestOk(m) && Addressed(m, siteId, keyId)
    && ContentKey(p, m, secret).Some?
    && AllOpen(p, files, m.artifacts, ContentKey(p, m, secret).value, contents)
    && GovernedContents(policy, contents)
  }

  function Inventory(p: Platform, artifacts: seq<Artifact>, contents: seq<Bytes>): (r: seq<Listed>)
    requires |contents| == |artifacts|
    ensures |r| == |contents| && forall k :: 0 <= k < |r| ==>
              r[k] == Listed(artifacts[k].name, artifacts[k].mediaType, Sha256(p.sha(contents[k])), |contents[k]|)
  {
    seq(|contents|, k requires 0 <= k < |contents| =>
      Listed(artifacts[k].name, artifacts[k].mediaType, Sha256(p.sha(contents[k])), |contents[k]|))
  }

  function StagedOf(p: Platform, v: Verified, policy: Policy, contents: seq<Bytes>): Staged
    requires |contents| == |v.manifest.artifacts|
  {
    var i := v.manifest.identity;
    Staged(DecryptionRecord(Sha256(v.hex), i.eventId, i.siteId, i.sequence,
                            if policy.requireGoverned then GovernedProfile else LegacyProfile,
                            Inventory(p, v.manifest.artifacts, contents)),
           contents)
  }

  method OpenArtifacts(p: Platform, files: Files, artifacts: seq<Artifact>, key: Bytes) returns (contents: Option<seq<Bytes>>)
    ensures contents.Some? ==> AllOpen(p, files, artifacts, key, contents.value)
    ensures contents.None? ==> forall c :: !AllOpen(p, files, artifacts, key, c)
  {
    var soFar: seq<Bytes> := [];
    for k := 0 to |artifacts|
      invariant AllOpen(p, files, artifacts[..k], key, soFar)
    {
      var plaintext := Opened(p, files, artifacts[k], key);
      if plaintext.None? {
        return None;
      }
      soFar := soFar + [plaintext.value];
    }
    assert artifacts[..|artifacts|] == artifacts;
    return Some(soFar);
  }

  lemma AllOpenUnique(p: Platform, files: Files, artifacts: seq<Artifact>, key: Bytes, a: seq<Bytes>, b: seq<Bytes>)
    requires AllOpen(p, files, artifacts, key, a) && AllOpen(p, files, artifacts, key, b)
    ensures a == b
  {
    forall k | 0 <= k < |a| ensures a[k] == b[k] {
      assert Opened(p, files, artifacts[k], key) == Some(a[k]);
    }
  }

  method DecryptTransferSet(p: Platform, files: Files, v: Verified, siteId: string, keyId: string, secret: Bytes,
                            policy: Policy, outputExists: bool) returns (result: Option<Staged>)
    ensures result.Some? ==>
              !outputExists && exists c :: DecryptsTo(p, files, v.manifest, siteId, keyId, secret, policy, c)
                                           && result.value == StagedOf(p, v, policy, c)
    ensures result.None? ==>
              outputExists || forall c :: !DecryptsTo(p, files, v.manifest, siteId, keyId, secret, policy, c)
  {
    var m := v.manifest;
    if m.version != V2 {
      return None;
    }
    var valid := ValidateManifest(m);
    if !valid || !Addressed(m, siteId, keyId) || outputExists {
      return None;
    }
    var contentKey := ContentKey(p, m, secret);
    if contentKey.None? {
      return None;
    }
    var contents := OpenArtifacts(p, files, m.artifacts, contentKey.value);
    if contents.None? {
      return None;
    }
    forall c | AllOpen(p, files, m.artifacts, contentKey.value, c) ensures c == contents.value {
      AllOpenUnique(p, files, m.artifacts, contentKey.value, c, contents.value);
    }
    if !GovernedContents(policy, contents.value) {
      return None;
    }
    assert DecryptsTo(p, files, m, siteId, keyId, secret, policy, contents.value);
    return Some(StagedOf(p, v, policy, contents.value));
  }
}
