/** What an accepted transfer set is, file by file and field by field. */
module TransferMeaning {
  import opened Prelude
  import opened Identifiers
  import opened Hpke
  import opened Transfer

  /** The artifact that belongs at place k. */
  predicate InPlace(a: Artifact, k: nat) {
    match k
    case 0 => a.name == Application && a.mediaType == OciImage
    case 1 => a.name == Model && a.mediaType == EvyModel
    case 2 => a.name == Corpus && a.mediaType == EvyCorpus
    case 3 => a.name == SignatureBundle && a.mediaType == EvySignatures
    case 4 => a.name == ActivationRequest && a.mediaType == EvyActivationRequest
    case _ => false
  }

  predicate Hexadecimal(hex: string) {
    |hex| == 64 && forall i :: 0 <= i < 64 ==> LowerHex(hex[i])
  }

  /** An encrypted layer: its own nonce, the digest and size of its plaintext, and additional data that name set,
      artifact, place and plaintext. */
  predicate Layered(a: Artifact, i: Identity, k: nat) {
    match a.encryption
    case None => false
    case Some(e) =>
      && e.algorithm == Aes256Gcm && |e.nonce| == 12
      && e.plaintextDigest.Sha256? && Hexadecimal(e.plaintextDigest.hex) && e.plaintextSize >= 0
      && e.aad.identity == i && e.aad.artifact == a.name && e.aad.mediaType == a.mediaType && e.aad.ordinal == k
      && e.aad.plaintextDigest == e.plaintextDigest
  }

  /** The envelope: HPKE for a recipient at the site, bound to set and recipient. */
  predicate Wrapped(e: Envelope, i: Identity) {
    && e.algorithm == HpkeX25519Aes256Gcm && e.info == Ascii("evy-transfer-content-key-v1")
    && e.recipient.siteId == i.siteId && WellFormedId(e.recipient.keyId)
    && |e.recipient.encapsulated| == 32 && |e.recipient.wrapped| == 48
    && e.recipient.aad.identity == i && e.recipient.aad.recipientKeyId == e.recipient.keyId
  }

  ghost predicate NoNonceTwice(m: Manifest) {
    forall j, k :: 0 <= j < k < |m.artifacts| && m.artifacts[j].encryption.Some? && m.artifacts[k].encryption.Some? ==>
      m.artifacts[j].encryption.value.nonce != m.artifacts[k].encryption.value.nonce
  }

  /** A manifest of either format: five artifacts in place, and encryption throughout or nowhere. */
  ghost predicate Regular(m: Manifest) {
    && WellFormedId(m.identity.mediaId) && WellFormedId(m.identity.eventId) && WellFormedId(m.identity.siteId)
    && WellFormedId(m.identity.classification) && m.identity.sequence >= 1
    && |m.artifacts| == 5
    && (forall k :: 0 <= k < 5 ==>
          && InPlace(m.artifacts[k], k) && m.artifacts[k].digest.Sha256? && Hexadecimal(m.artifacts[k].digest.hex)
          && m.artifacts[k].size >= 0)
    && match m.version
       case V1 => m.mediaType == PlainManifest && m.envelope == None && forall k :: 0 <= k < 5 ==> m.artifacts[k].encryption == None
       case V2 =>
         && m.mediaType == EncryptedManifest && m.envelope.Some? && Wrapped(m.envelope.value, m.identity)
         && (forall k :: 0 <= k < 5 ==> Layered(m.artifacts[k], m.identity, k)) && NoNonceTwice(m)
       case OtherVersion(_) => false
  }

  lemma ArtifactIff(m: Manifest, k: nat)
    requires k < 5 == |m.artifacts| && (m.version == V1 || m.version == V2)
    ensures ArtifactOk(m, k) && m.artifacts[k].name == NAMES[k] <==>
            && InPlace(m.artifacts[k], k) && m.artifacts[k].digest.Sha256? && Hexadecimal(m.artifacts[k].digest.hex)
            && m.artifacts[k].size >= 0
            && if m.version == V2 then Layered(m.artifacts[k], m.identity, k) else m.artifacts[k].encryption == None
  {
    assert NAMES == [Application, Model, Corpus, SignatureBundle, ActivationRequest];
  }

  lemma HeadIff(m: Manifest)
    ensures HeadOk(m) <==>
            && WellFormedId(m.identity.mediaId) && WellFormedId(m.identity.eventId) && WellFormedId(m.identity.siteId)
            && WellFormedId(m.identity.classification) && m.identity.sequence >= 1
            && match m.version
               case V1 => m.mediaType == PlainManifest && m.envelope == None
               case V2 => m.mediaType == EncryptedManifest && m.envelope.Some? && Wrapped(m.envelope.value, m.identity)
               case OtherVersion(_) => false
  {
  }

  /** Validation accepts exactly the regular manifests. */
  lemma ManifestOkIff(m: Manifest)
    ensures ManifestOk(m) <==> Regular(m)
  {
    HeadIff(m);
    if |m.artifacts| == 5 && (m.version == V1 || m.version == V2) {
      forall k | 0 <= k < 5
        ensures ArtifactOk(m, k) && m.artifacts[k].name == NAMES[k] <==>
                && InPlace(m.artifacts[k], k) && m.artifacts[k].digest.Sha256? && Hexadecimal(m.artifacts[k].digest.hex)
                && m.artifacts[k].size >= 0
                && if m.version == V2 then Layered(m.artifacts[k], m.identity, k) else m.artifacts[k].encryption == None
      {
        ArtifactIff(m, k);
      }
    }
  }

  /** The set is of the expected event and site, of a permitted class, newer than the floor, on unused media. */
  predicate Awaited(i: Identity, e: Expectation) {
    && i.eventId == e.eventId && i.siteId == e.siteId && i.classification in e.classifications
    && i.sequence > e.floor && forall k :: 0 <= k < |e.used| ==> e.used[k] != i.mediaId
  }

  /** Layout, index and manifest blob, each under its path and bound by the digest in the index. */
  predicate Addressed(p: Platform, files: Files, v: Verified) {
    && Layout in files && p.decode(files[Layout]) == Some(LayoutRecord(V1))
    && Hexadecimal(v.hex) && Blob(v.hex) in files && p.sha(files[Blob(v.hex)]) == v.hex
    && files[Blob(v.hex)] == p.encode(ManifestRecord(v.manifest)) && p.decode(files[Blob(v.hex)]) == Some(ManifestRecord(v.manifest))
    && Index in files
    && p.decode(files[Index]) == Some(IndexRecord(v.manifest.mediaType, Sha256(v.hex), |files[Blob(v.hex)]|))
  }

  /** The artifact's blob lies under its digest, and has that digest and the size named. */
  predicate Present(p: Platform, files: Files, a: Artifact) {
    match a.digest
    case Sha256(hex) => a.path == Blob(hex) && Blob(hex) in files && p.sha(files[Blob(hex)]) == hex && |files[Blob(hex)]| == a.size
    case OtherDigest(_) => false
  }

  /** Nothing else is there. */
  predicate Declared(files: Files, v: Verified, path: Path) {
    || path == Layout || path == Index || path == Blob(v.hex) || path == SignatureFile
    || exists k :: 0 <= k < |v.manifest.artifacts| && v.manifest.artifacts[k].path == path
  }

  predicate Signed(files: Files, blob: Path, e: Expectation)
    requires blob in files
  {
    && (e.requireSignature ==> e.verifier.Some?)
    && (e.verifier.Some? ==> SignatureFile in files && e.verifier.value(files[blob], files[SignatureFile]))
  }

  predicate Governed(files: Files, m: Manifest, e: Expectation)
    requires m.version == V1 ==> |m.artifacts| >= 4
  {
    && (e.requireGoverned ==> e.governance.Some?)
    && (e.requireGoverned && m.version == V1 ==>
          m.artifacts[2].path in files && m.artifacts[3].path in files
          && e.governance.value.accepts(files[m.artifacts[2].path], files[m.artifacts[3].path]))
  }

  /** A set that a site takes. */
  ghost predicate Taken(p: Platform, files: Files, v: Verified, e: Expectation) {
    var m := v.manifest;
    && Addressed(p, files, v) && Regular(m) && Awaited(m.identity, e)
    && (forall k :: 0 <= k < |m.artifacts| ==> Present(p, files, m.artifacts[k]))
    && (forall path :: path in files ==> Declared(files, v, path))
    && Signed(files, Blob(v.hex), e) && Governed(files, m, e)
  }

  lemma ExpectedIff(m: Manifest, e: Expectation)
    ensures Expected(m, e) <==> Awaited(m.identity, e)
  {
  }

  lemma StoredIff(p: Platform, files: Files, a: Artifact)
    ensures Stored(p, files, a) <==> Present(p, files, a)
  {
  }

  lemma ClosedIff(p: Platform, files: Files, v: Verified)
    requires Addressed(p, files, v) && forall k :: 0 <= k < |v.manifest.artifacts| ==> v.manifest.artifacts[k].path in files
    ensures files.Keys == DeclaredFiles(files, v) <==> forall path :: path in files ==> Declared(files, v, path)
  {
    if forall path :: path in files ==> Declared(files, v, path) {
      forall path ensures path in files <==> path in DeclaredFiles(files, v) {}
    }
    if files.Keys == DeclaredFiles(files, v) {
      forall path | path in files ensures Declared(files, v, path) {
        assert path in DeclaredFiles(files, v);
      }
    }
  }

  /** Verification accepts exactly the sets a site takes. */
  lemma AcceptableIff(p: Platform, files: Files, v: Verified, e: Expectation)
    ensures Acceptable(p, files, v, e) <==> Taken(p, files, v, e)
  {
    ManifestOkIff(v.manifest);
    ExpectedIff(v.manifest, e);
    forall k | 0 <= k < |v.manifest.artifacts|
      ensures Stored(p, files, v.manifest.artifacts[k]) <==> Present(p, files, v.manifest.artifacts[k])
    {
      StoredIff(p, files, v.manifest.artifacts[k]);
    }
    if Addressed(p, files, v) && forall k :: 0 <= k < |v.manifest.artifacts| ==> Present(p, files, v.manifest.artifacts[k]) {
      ClosedIff(p, files, v);
    }
  }

  // ---------------------------------------------------------------- decryption and export

  /** The content is what the layer opens to, with the digest and size the manifest promises. */
  predicate OpensTo(p: Platform, files: Files, a: Artifact, key: Bytes, content: Bytes) {
    && a.encryption.Some? && a.path in files
    && var e := a.encryption.value;
       && p.crypto.unseal(key, e.nonce, files[a.path], p.encode(LayerAadRecord(e.aad))) == Some(content)
       && e.plaintextDigest == Sha256(p.sha(content)) && e.plaintextSize == |content|
  }

  /** Decryption yields these contents exactly for a regular encrypted set of this site and key, when the recipient's
      secret recovers a content key under which every layer opens to its content, and governance, where asked for,
      accepts corpus and signatures. */
  lemma DecryptsToIff(p: Platform, files: Files, m: Manifest, siteId: string, keyId: string, secret: Bytes, policy: Policy,
                      contents: seq<Bytes>)
    ensures DecryptsTo(p, files, m, siteId, keyId, secret, policy, contents) <==>
            && m.version == V2 && Regular(m) && m.identity.siteId == siteId && WellFormedId(keyId)
            && m.envelope.value.recipient.keyId == keyId
            && var r := m.envelope.value.recipient;
               var key := Unwrap(p.crypto, secret, r.encapsulated, r.wrapped, m.envelope.value.info, p.encode(WrapAadRecord(r.aad)));
               && key.Some? && |contents| == 5
               && (forall k :: 0 <= k < 5 ==> OpensTo(p, files, m.artifacts[k], key.value, contents[k]))
               && (policy.requireGoverned ==>
                     policy.governance.Some? && policy.governance.value.profileOk(contents[2])
                     && policy.governance.value.accepts(contents[2], contents[3]))
  {
    ManifestOkIff(m);
    if m.version == V2 && Regular(m) && ContentKey(p, m, secret).Some? && |contents| == 5 {
      AllOpenIff(p, files, m.artifacts, ContentKey(p, m, secret).value, contents);
    }
  }

  lemma AllOpenIff(p: Platform, files: Files, artifacts: seq<Artifact>, key: Bytes, contents: seq<Bytes>)
    requires |artifacts| == 5 == |contents|
    ensures AllOpen(p, files, artifacts, key, contents) <==>
            forall k :: 0 <= k < 5 ==> OpensTo(p, files, artifacts[k], key, contents[k])
  {
    forall k | 0 <= k < 5
      ensures Opened(p, files, artifacts[k], key) == Some(contents[k]) <==> OpensTo(p, files, artifacts[k], key, contents[k])
    {
    }
  }

  /** What may be exported: the five artifacts, not for the public, to a recipient at the named site, and governed
      where that is asked for. */
  lemma ExportableIff(artifacts: map<Name, Bytes>, i: Identity, d: Destination, policy: Policy)
    ensures Exportable(artifacts, i, d, policy) <==>
            && (forall n :: n in artifacts <==>
                  n == Application || n == Model || n == Corpus || n == SignatureBundle || n == ActivationRequest)
            && i.classification != "public" && WellFormedId(i.classification) && i.sequence >= 1
            && WellFormedId(i.mediaId) && WellFormedId(i.eventId) && WellFormedId(i.siteId)
            && d.siteId == i.siteId && WellFormedId(d.keyId)
            && (policy.requireGoverned ==>
                  policy.governance.Some? && policy.governance.value.accepts(artifacts[Corpus], artifacts[SignatureBundle]))
  {
    assert artifacts.Keys == REQUIRED <==> forall n :: n in artifacts <==> n in REQUIRED;
  }
}
