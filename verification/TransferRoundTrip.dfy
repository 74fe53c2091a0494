/** What is exported verifies and decrypts to the original artifacts, and what verifies is fixed by its digest. */
module TransferRoundTrip {
  import opened Prelude
  import opened Identifiers
  import opened Hpke
  import opened Transfer

  /** No two of these contents share a SHA-256. */
  ghost predicate CollisionFree(p: Platform, contents: set<Bytes>) {
    forall a, b :: a in contents && b in contents && p.sha(a) == p.sha(b) ==> a == b
  }

  // ---------------------------------------------------------------- content-addressed blobs

  lemma {:induction false} BlobsHold(p: Platform, contents: seq<Bytes>, all: set<Bytes>, k: nat)
    requires k < |contents| && CollisionFree(p, all) && forall i :: 0 <= i < |contents| ==> contents[i] in all
    ensures Blob(p.sha(contents[k])) in Blobs(p, contents)
    ensures Blobs(p, contents)[Blob(p.sha(contents[k]))] == contents[k]
    decreases |contents|
  {
    var last := |contents| - 1;
    if k < last && p.sha(contents[k]) != p.sha(contents[last]) {
      BlobsHold(p, contents[..last], all, k);
    }
  }

  lemma {:induction false} BlobsHoldOnly(p: Platform, contents: seq<Bytes>)
    ensures Blobs(p, contents).Keys == set k | 0 <= k < |contents| :: Blob(p.sha(contents[k]))
  {
    if contents != [] {
      BlobsHoldOnly(p, contents[..|contents| - 1]);
    }
  }

  // ---------------------------------------------------------------- export, then verify

  /** One export: what is sent, to whom, and the randomness drawn. */
  datatype Shipment = Shipment(
    artifacts: map<Name, Bytes>, identity: Identity, destination: Destination, random: Randomness,
    signer: Option<Bytes -> Bytes>)

  predicate Ready(s: Shipment) {
    && s.artifacts.Keys == REQUIRED && RandomnessOk(s.random) && IdentityOk(s.identity)
    && WellFormedId(s.destination.keyId) && s.destination.siteId == s.identity.siteId
  }

  function ManifestOf(p: Platform, s: Shipment): Manifest
    requires Ready(s)
  {
    ExportManifest(p, s.artifacts, s.identity, s.destination, s.random)
  }

  function ManifestBytes(p: Platform, s: Shipment): Bytes
    requires Ready(s)
  {
    p.encode(ManifestRecord(ManifestOf(p, s)))
  }

  function FilesOf(p: Platform, s: Shipment): Files
    requires Ready(s)
  {
    Exported(p, s.artifacts, s.identity, s.destination, s.random, s.signer)
  }

  function CiphertextsOf(p: Platform, s: Shipment): (c: seq<Bytes>)
    requires Ready(s)
    ensures |c| == 5
  {
    Ciphertexts(p, s.artifacts, s.identity, s.random)
  }

  /** The five ciphertexts and the manifest have different digests unless they are equal. */
  ghost predicate NoCollision(p: Platform, s: Shipment)
    requires Ready(s)
  {
    CollisionFree(p, (set k | 0 <= k < 5 :: CiphertextsOf(p, s)[k]) + {ManifestBytes(p, s)})
  }

  lemma WrappedKeeps(p: Platform, blobs: Files, m: Manifest, signer: Option<Bytes -> Bytes>, hex: string)
    requires Blob(hex) in blobs
    requires hex == p.sha(p.encode(ManifestRecord(m))) ==> blobs[Blob(hex)] == p.encode(ManifestRecord(m))
    ensures Blob(hex) in Wrapped(p, blobs, m, signer)
    ensures Wrapped(p, blobs, m, signer)[Blob(hex)] == blobs[Blob(hex)]
  {
  }

  lemma FilesHoldCiphertext(p: Platform, s: Shipment, k: nat)
    requires Ready(s) && NoCollision(p, s) && k < 5
    ensures Blob(p.sha(CiphertextsOf(p, s)[k])) in FilesOf(p, s)
    ensures FilesOf(p, s)[Blob(p.sha(CiphertextsOf(p, s)[k]))] == CiphertextsOf(p, s)[k]
  {
    var c := CiphertextsOf(p, s);
    var all := (set i | 0 <= i < 5 :: c[i]) + {ManifestBytes(p, s)};
    assert c[k] in all && ManifestBytes(p, s) in all;
    BlobsHold(p, c, all, k);
    WrappedKeeps(p, Blobs(p, c), ManifestOf(p, s), s.signer, p.sha(c[k]));
  }

  lemma FilesAreIndexed(p: Platform, s: Shipment)
    requires LawfulPlatform(p) && Ready(s)
    ensures Indexed(p, FilesOf(p, s), Verified(ManifestOf(p, s), p.sha(ManifestBytes(p, s))))
  {
    assert p.decode(p.encode(LAYOUT)) == Some(LAYOUT);
    assert p.decode(ManifestBytes(p, s)) == Some(ManifestRecord(ManifestOf(p, s)));
  }

  lemma EnvelopeIsOk(p: Platform, s: Shipment, secret: Bytes)
    requires LawfulPlatform(p) && Ready(s) && s.destination.publicKey == p.crypto.publicKey(secret)
    ensures EnvelopeOk(EnvelopeOf(p, s.identity, s.destination, s.random), s.identity)
  {
    UnwrapInvertsWrap(p.crypto, secret, s.random.contentKey, HpkeInfo(),
                      p.encode(WrapAadRecord(WrapAad(s.identity, s.destination.keyId))), s.random.ephemeral);
  }

  lemma LayerIsOk(p: Platform, s: Shipment, k: nat)
    requires LawfulPlatform(p) && Ready(s) && k < 5
    ensures var m := ManifestOf(p, s);
            ArtifactOk(m, k) && m.artifacts[k].name == NAMES[k] && NonceOf(m.artifacts[k]) == s.random.nonces[k]
  {
    assert ManifestOf(p, s).artifacts[k] == LayerOf(p, s.artifacts, s.identity, s.random, k).1;
  }

  lemma NoncesDecide(m: Manifest, nonces: seq<Bytes>)
    requires HeadOk(m) && NamesOk(m) && m.version == V2 && |nonces| == 5
    requires forall k :: 0 <= k < 5 ==> ArtifactOk(m, k) && NonceOf(m.artifacts[k]) == nonces[k]
    ensures ManifestOk(m) <==> Distinct(nonces)
  {
  }

  /** The manifest obeys its own rules exactly when no two artifacts drew the same nonce. */
  lemma ManifestOkIff(p: Platform, s: Shipment)
    requires LawfulPlatform(p) && Ready(s)
    requires exists secret :: s.destination.publicKey == p.crypto.publicKey(secret)
    ensures ManifestOk(ManifestOf(p, s)) <==> Distinct(s.random.nonces)
  {
    var m := ManifestOf(p, s);
    var secret :| s.destination.publicKey == p.crypto.publicKey(secret);
    EnvelopeIsOk(p, s, secret);
    forall k | 0 <= k < 5
      ensures ArtifactOk(m, k) && m.artifacts[k].name == NAMES[k] && NonceOf(m.artifacts[k]) == s.random.nonces[k]
    {
      LayerIsOk(p, s, k);
    }
    NoncesDecide(m, s.random.nonces);
  }

  lemma FilesAreStored(p: Platform, s: Shipment)
    requires LawfulPlatform(p) && Ready(s) && NoCollision(p, s)
    ensures AllStored(p, FilesOf(p, s), ManifestOf(p, s).artifacts)
  {
    var m := ManifestOf(p, s);
    forall k | 0 <= k < 5 ensures Stored(p, FilesOf(p, s), m.artifacts[k]) {
      FilesHoldCiphertext(p, s, k);
      assert m.artifacts[k] == LayerOf(p, s.artifacts, s.identity, s.random, k).1;
    }
  }

  lemma FilesAreDeclared(p: Platform, s: Shipment)
    requires Ready(s)
    ensures FilesOf(p, s).Keys == DeclaredFiles(FilesOf(p, s), Verified(ManifestOf(p, s), p.sha(ManifestBytes(p, s))))
  {
    BlobsHoldOnly(p, CiphertextsOf(p, s));
    var m := ManifestOf(p, s);
    forall k | 0 <= k < 5 ensures m.artifacts[k].path == Blob(p.sha(CiphertextsOf(p, s)[k])) {
      assert m.artifacts[k] == LayerOf(p, s.artifacts, s.identity, s.random, k).1;
    }
    assert ArtifactPaths(m.artifacts) == Blobs(p, CiphertextsOf(p, s)).Keys;
  }

  /** An exported set is accepted at its site if and only if the five nonces differ, the site expects this
      identity, and the signature the site asks for is there. */
  lemma ExportedIsAcceptedIff(p: Platform, s: Shipment, e: Expectation)
    requires LawfulPlatform(p) && Ready(s) && NoCollision(p, s)
    requires exists secret :: s.destination.publicKey == p.crypto.publicKey(secret)
    ensures Acceptable(p, FilesOf(p, s), Verified(ManifestOf(p, s), p.sha(ManifestBytes(p, s))), e) <==>
            && Distinct(s.random.nonces)
            && Expected(ManifestOf(p, s), e)
            && (e.requireGoverned ==> e.governance.Some?)
            && (e.requireSignature ==> e.verifier.Some?)
            && (e.verifier.Some? ==>
                  s.signer.Some? && e.verifier.value(ManifestBytes(p, s), s.signer.value(ManifestBytes(p, s))))
  {
    FilesAreIndexed(p, s);
    ManifestOkIff(p, s);
    FilesAreStored(p, s);
    FilesAreDeclared(p, s);
    SignatureIff(p, s, e);
    WhatIsLeft(p, FilesOf(p, s), Verified(ManifestOf(p, s), p.sha(ManifestBytes(p, s))), e);
  }

  /** What a complete set with the right digests can still fail. */
  lemma WhatIsLeft(p: Platform, files: Files, v: Verified, e: Expectation)
    requires Indexed(p, files, v) && AllStored(p, files, v.manifest.artifacts) && files.Keys == DeclaredFiles(files, v)
    requires IdentityOk(v.manifest.identity) && v.manifest.version == V2
    ensures Acceptable(p, files, v, e) <==>
            && ManifestOk(v.manifest) && Expected(v.manifest, e)
            && (e.requireGoverned ==> e.governance.Some?) && SignatureOk(files, files[Blob(v.hex)], e)
  {
  }

  lemma SignatureIff(p: Platform, s: Shipment, e: Expectation)
    requires Ready(s)
    ensures SignatureFile in FilesOf(p, s) <==> s.signer.Some?
    ensures s.signer.Some? ==> FilesOf(p, s)[SignatureFile] == s.signer.value(ManifestBytes(p, s))
  {
    BlobsHoldOnly(p, CiphertextsOf(p, s));
  }

  /** Five empty artifacts, encrypted under one nonce. */
  function RepeatedNonce(p: Platform): Shipment {
    Shipment(map n | n in REQUIRED :: [], Identity("disk", "event", "site", 1, "restricted"),
             Destination("site", "key", p.crypto.publicKey([])),
             Randomness(seq(32, _ => 0), [], seq(5, _ => seq(12, _ => 0))), None)
  }

  /** Export accepts the shipment, and no site accepts what it wrote. */
  lemma RepeatedNonceIsExportedThenRefused(p: Platform, e: Expectation)
    requires LawfulPlatform(p)
    ensures var s := RepeatedNonce(p);
            && Ready(s) && Exportable(s.artifacts, s.identity, s.destination, Policy(None, None, false))
            && !Acceptable(p, FilesOf(p, s), Verified(ManifestOf(p, s), p.sha(ManifestBytes(p, s))), e)
  {
    var s := RepeatedNonce(p);
    assert s.random.nonces[0] == s.random.nonces[1];
    ManifestOkIff(p, s);
  }

  // ---------------------------------------------------------------- then decrypt

  function Originals(s: Shipment): (c: seq<Bytes>)
    requires Ready(s)
    ensures |c| == 5 && forall k :: 0 <= k < 5 ==> c[k] == s.artifacts[NAMES[k]]
  {
    seq(5, k requires 0 <= k < 5 => s.artifacts[NAMES[k]])
  }

  lemma ArtifactsOpen(p: Platform, s: Shipment)
    requires LawfulPlatform(p) && Ready(s) && NoCollision(p, s)
    ensures AllOpen(p, FilesOf(p, s), ManifestOf(p, s).artifacts, s.random.contentKey, Originals(s))
  {
    var m := ManifestOf(p, s);
    forall k | 0 <= k < 5
      ensures Opened(p, FilesOf(p, s), m.artifacts[k], s.random.contentKey) == Some(Originals(s)[k])
    {
      FilesHoldCiphertext(p, s, k);
      assert m.artifacts[k] == LayerOf(p, s.artifacts, s.identity, s.random, k).1;
    }
  }

  lemma ContentKeyRecovered(p: Platform, s: Shipment, secret: Bytes)
    requires LawfulPlatform(p) && Ready(s) && s.destination.publicKey == p.crypto.publicKey(secret)
    ensures ContentKey(p, ManifestOf(p, s), secret) == Some(s.random.contentKey)
  {
    UnwrapInvertsWrap(p.crypto, secret, s.random.contentKey, HpkeInfo(),
                      p.encode(WrapAadRecord(WrapAad(s.identity, s.destination.keyId))), s.random.ephemeral);
  }

  /** The round trip: for all five artifacts and any recipient key, what is exported decrypts at its site
      to exactly the original bytes, and to nothing else. */
  lemma RoundTrip(p: Platform, s: Shipment, secret: Bytes, policy: Policy, contents: seq<Bytes>)
    requires LawfulPlatform(p) && Ready(s) && NoCollision(p, s) && Distinct(s.random.nonces)
    requires s.destination.publicKey == p.crypto.publicKey(secret)
    requires GovernedContents(policy, Originals(s))
    ensures DecryptsTo(p, FilesOf(p, s), ManifestOf(p, s), s.identity.siteId, s.destination.keyId, secret, policy, contents)
            <==> contents == Originals(s)
  {
    ManifestOkIff(p, s);
    ContentKeyRecovered(p, s, secret);
    ArtifactsOpen(p, s);
    if AllOpen(p, FilesOf(p, s), ManifestOf(p, s).artifacts, s.random.contentKey, contents) {
      AllOpenUnique(p, FilesOf(p, s), ManifestOf(p, s).artifacts, s.random.contentKey, contents, Originals(s));
    }
  }

  /** The record beside the contents lists what was exported: the five originals with their digests and
      sizes, for this event, site and sequence. */
  lemma StagedListsOriginals(p: Platform, s: Shipment, policy: Policy, k: nat)
    requires Ready(s) && k < 5
    ensures var staged := StagedOf(p, Verified(ManifestOf(p, s), p.sha(ManifestBytes(p, s))), policy, Originals(s));
            && staged.contents[k] == s.artifacts[NAMES[k]]
            && staged.record.artifacts[k]
               == Listed(NAMES[k], MediaTypeOf(NAMES[k]), Sha256(p.sha(s.artifacts[NAMES[k]])), |s.artifacts[NAMES[k]]|)
            && staged.record.eventId == s.identity.eventId && staged.record.siteId == s.identity.siteId
            && staged.record.sequence == s.identity.sequence
            && staged.record.sourceManifest == Sha256(p.sha(ManifestBytes(p, s)))
            && (staged.record.profile == GovernedProfile <==> policy.requireGoverned)
  {
    assert ManifestOf(p, s).artifacts[k] == LayerOf(p, s.artifacts, s.identity, s.random, k).1;
  }

  // ---------------------------------------------------------------- what verification guarantees

  ghost predicate CollisionFreeSets(p: Platform, a: Files, b: Files) {
    forall x, y :: (x in a.Values || x in b.Values) && (y in a.Values || y in b.Values) && p.sha(x) == p.sha(y) ==> x == y
  }

  /** Two accepted sets with one manifest digest hold the same manifest, artifacts and file names: apart
      from its signature and the spelling of its layout and index, a set is fixed by its digest. */
  lemma DigestFixesSet(p: Platform, a: Files, b: Files, v: Verified, w: Verified, e: Expectation, f: Expectation, k: nat)
    requires Acceptable(p, a, v, e) && Acceptable(p, b, w, f) && v.hex == w.hex && CollisionFreeSets(p, a, b)
    requires k < |v.manifest.artifacts|
    ensures v == w
    ensures v.manifest.artifacts[k].path in a && v.manifest.artifacts[k].path in b
    ensures a[v.manifest.artifacts[k].path] == b[v.manifest.artifacts[k].path]
  {
    assert a[Blob(v.hex)] in a.Values && b[Blob(v.hex)] in b.Values;
    assert Stored(p, a, v.manifest.artifacts[k]) && Stored(p, b, w.manifest.artifacts[k]);
    var path := v.manifest.artifacts[k].path;
    assert a[path] in a.Values && b[path] in b.Values;
  }

  /** Whatever the key and the ciphertext, decryption only ever yields contents with the digests and sizes
      the manifest promises for this site, artifact and position. */
  lemma DecryptedIsPromised(p: Platform, files: Files, m: Manifest, siteId: string, keyId: string, secret: Bytes,
                            policy: Policy, contents: seq<Bytes>, k: nat)
    requires DecryptsTo(p, files, m, siteId, keyId, secret, policy, contents) && k < 5
    ensures m.artifacts[k].encryption.value.aad
            == LayerAad(m.identity, NAMES[k], MediaTypeOf(NAMES[k]), k, Sha256(p.sha(contents[k])))
    ensures |contents[k]| == m.artifacts[k].encryption.value.plaintextSize && m.identity.siteId == siteId
  {
    assert ArtifactOk(m, k) && Opened(p, files, m.artifacts[k], ContentKey(p, m, secret).value) == Some(contents[k]);
  }
}
