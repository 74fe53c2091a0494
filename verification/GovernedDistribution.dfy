/**
 The end of the evidence chain: `GovernedReleaseVerifier` accepts a candidate and a bundle of four
 records. What it accepts comes from a passing evaluation, and what the honest pipeline produces is
 accepted.
 */
module GovernedDistribution {
  import opened Prelude
  import opened Crypto
  import opened Promotion
  import opened EvaluationAttestation
  import opened ReleaseSigning

  const MAX_EVIDENCE_BYTES := 4 * 1024 * 1024

  datatype Bundle = Bundle(
    signature: ReleaseRecord, authorization: Authorization, report: Report, attestation: Attestation)

  /** `profileOf` reads the contract profile out of a candidate manifest. */
  datatype Verifier = Verifier(
    releaseKeyId: string, releaseKey: PublicKey, attestationKeys: map<KeyId, PublicKey>, asOf: int,
    minimumGeneration: int, revokedIds: set<Digest<AttestationBody>>, revokedKeys: set<KeyId>,
    profileOf: Blob -> Option<Profile>)

  datatype Refusal =
    | NotGoverned | BadContract | StaleEvidence | UntrustedAttestationKey | InvalidEvidence | NotCovered | NotBound
    | UntrustedReleaseKey | BadReleaseSignature

  function TrustOf(v: Verifier): Trust {
    Trust(v.asOf, v.revokedIds, v.revokedKeys)
  }

  /** The candidate is a readable governed manifest. */
  predicate Readable(v: Verifier, candidate: Blob) {
    |candidate| <= MAX_EVIDENCE_BYTES && v.profileOf(candidate) == Some(GovernedV1)
  }

  predicate Covered(candidate: Blob, b: Bundle) {
    && SubjectOf(b.report).Some? && SubjectOf(b.report).value.release == Sha256(candidate)
    && b.attestation.statement.body.subject.release == Sha256(candidate)
  }

  /** The attestation verifies under the trusted key the authorization names. */
  predicate EvidenceAccepted(v: Verifier, keyId: KeyId, b: Bundle) {
    keyId in v.attestationKeys && AttestationValid(b.attestation, b.report, v.attestationKeys[keyId], TrustOf(v))
  }

  predicate Accepts(v: Verifier, candidate: Blob, b: Bundle) {
    && Readable(v, candidate)
    && AuthorizationContract(b.authorization) && RecordContract(b.signature)
    && b.authorization.body.generation >= v.minimumGeneration
    && EvidenceAccepted(v, b.authorization.body.keyId, b)
    && Covered(candidate, b)
    && Names(b.authorization.body, b.report, b.attestation)
    && b.signature.statement.body.key.keyId == v.releaseKeyId
    && SignatureValid(candidate, b.authorization, b.signature, v.releaseKey)
  }

  method VerifyGovernedRelease(v: Verifier, candidate: Blob, b: Bundle) returns (result: Result<Bundle, Refusal>)
    ensures result.Ok? <==> Accepts(v, candidate, b)
    ensures result.Ok? ==> result.value == b
    ensures result == Err(BadReleaseSignature) ==> !SignatureValid(candidate, b.authorization, b.signature, v.releaseKey)
    ensures result == Err(InvalidEvidence) ==>
              && b.authorization.body.keyId in v.attestationKeys
              && !AttestationValid(b.attestation, b.report, v.attestationKeys[b.authorization.body.keyId], TrustOf(v))
  {
    if !Readable(v, candidate) {
      return Err(NotGoverned);
    }
    if !AuthorizationContract(b.authorization) || !RecordContract(b.signature) {
      return Err(BadContract);
    }
    if b.authorization.body.generation < v.minimumGeneration {
      return Err(StaleEvidence);
    }
    if b.authorization.body.keyId !in v.attestationKeys {
      return Err(UntrustedAttestationKey);
    }
    if !AttestationValid(b.attestation, b.report, v.attestationKeys[b.authorization.body.keyId], TrustOf(v)) {
      return Err(InvalidEvidence);
    }
    if !Covered(candidate, b) {
      return Err(NotCovered);
    }
    if !Names(b.authorization.body, b.report, b.attestation) {
      return Err(NotBound);
    }
    if b.signature.statement.body.key.keyId != v.releaseKeyId {
      return Err(UntrustedReleaseKey);
    }
    if !SignatureValid(candidate, b.authorization, b.signature, v.releaseKey) {
      return Err(BadReleaseSignature);
    }
    return Ok(b);
  }

  // ---------------------------------------------------------------- soundness

  /** An accepted candidate is byte for byte the release that a passing governed report with all six
      layers names, an attestation of that report by a trusted key carries two independent approvals, and
      the release key signed both the candidate and a statement that names them. */
  lemma AcceptedIsGoverned(v: Verifier, candidate: Blob, b: Bundle) returns (i: nat, j: nat)
    requires Accepts(v, candidate, b)
    ensures ReportOk(b.report) && b.report.body.binding.Keys == (set f | f in FIELDS)
    ensures ReleaseDigest in b.report.body.binding && b.report.body.binding[ReleaseDigest] == Some(Sha256(candidate))
    ensures TwoApproved(b.attestation.statement.body, i, j)
    ensures var key := v.attestationKeys[b.authorization.body.keyId];
            PublicKeyId(key) == b.authorization.body.keyId && b.attestation.signature == SignedBy(key, b.attestation.statement)
    ensures b.signature.manifestSignature == SignedBy(v.releaseKey, candidate)
    ensures b.signature.signature == SignedBy(v.releaseKey, b.signature.statement)
    ensures b.signature.statement.body.authorizationDigest == Sha256(b.authorization)
  {
    i, j := ContractMeansTwoApproved(b.attestation);
    OkReportHasSubject(b.report);
  }

  /** The chain leaves no choice: one accepted record fixes the candidate, and one accepted authorization
      fixes report and attestation. */
  lemma AcceptedChainIsUnique(v: Verifier, w: Verifier, candidate: Blob, other: Blob, b: Bundle, c: Bundle)
    requires Accepts(v, candidate, b) && Accepts(w, other, c)
    requires b.signature.statement == c.signature.statement
    ensures candidate == other && b.authorization == c.authorization && b.report == c.report
            && b.attestation == c.attestation
  {
    assert Sha256(b.authorization) == Sha256(c.authorization);
    assert Sha256(candidate) == Sha256(other);
    assert Sha256(b.report) == Sha256(c.report) && Sha256(b.attestation) == Sha256(c.attestation);
  }

  // ---------------------------------------------------------------- completeness

  /** One run of the pipeline after evaluation: attest, authorize, sign. */
  datatype Pipeline = Pipeline(
    approvals: AttestationRequest, candidate: Blob, authorizedTrust: Trust, policy: Policy, metadata: KeyMetadata,
    keyId: string, signingTime: int)

  /** Every stage did its part, starting from a report fit to be attested: by
      `EvaluationAttestation.EvaluatedReportOkIff`, exactly a report that passed under the governed profile. */
  ghost predicate Honest(p: Pipeline, b: Bundle, signed: Signed) {
    && b.report == p.approvals.report
    && Preparable(p.approvals) && SubjectOf(b.report).Some?
    && Finalize(StatementOf(p.approvals), SignedBy(p.approvals.key, StatementOf(p.approvals)), p.approvals.key)
       == Some(b.attestation)
    && Authorize(p.candidate, b.report, b.attestation, p.approvals.key, p.authorizedTrust) == Some(b.authorization)
    && SignedHonestly(p, b, signed)
  }

  predicate SignedHonestly(p: Pipeline, b: Bundle, signed: Signed) {
    var q := SigningRequest(p.candidate, b.authorization, b.report, b.attestation, p.keyId);
    && PolicyOk(p.policy) && EvidenceOk(p.policy, q, p.signingTime)
    && KeyUsable(p.policy, p.metadata, p.keyId, p.signingTime)
    && SignedOk(p.metadata.publicKey.value, StatementFor(q, p.metadata, p.signingTime), p.candidate, signed)
    && b.signature == ReleaseRecord(StatementFor(q, p.metadata, p.signingTime), signed.statement, signed.candidate)
  }

  /** What a verifier must know, and when it must look, to accept what the pipeline made. */
  predicate InForce(v: Verifier, p: Pipeline, b: Bundle) {
    && Readable(v, p.candidate)
    && v.releaseKeyId == p.keyId && Some(v.releaseKey) == p.metadata.publicKey
    && p.approvals.generation >= v.minimumGeneration
    && AttestationInForce(v, p, b)
  }

  /** The attestation key is the verifier's, and the attestation is current for it. */
  predicate AttestationInForce(v: Verifier, p: Pipeline, b: Bundle) {
    && PublicKeyId(p.approvals.key) in v.attestationKeys
    && v.attestationKeys[PublicKeyId(p.approvals.key)] == p.approvals.key
    && p.approvals.signedAt <= v.asOf < p.approvals.lifecycle.until && v.asOf < p.approvals.keyWindow.until
    && b.attestation.statement.id !in v.revokedIds && PublicKeyId(p.approvals.key) !in v.revokedKeys
  }

  /** A bundle built by evaluating, attesting, authorizing and signing is accepted exactly by the verifiers
      for which it is in force: the right keys, inside the windows, not revoked, and a manifest of at most
      4 MiB, although the signer takes candidates of up to 16 MiB. */
  lemma HonestBundleAcceptedIff(v: Verifier, p: Pipeline, b: Bundle, signed: Signed)
    requires Honest(p, b, signed)
    ensures Accepts(v, p.candidate, b) <==> InForce(v, p, b)
  {
    HonestEvidence(p, b, signed);
    HonestSignature(v, p, b, signed);
    HonestAttestation(v, p, b, signed);
    AcceptedGiven(v, p, b);
  }

  lemma AcceptedGiven(v: Verifier, p: Pipeline, b: Bundle)
    requires AuthorizationContract(b.authorization) && Names(b.authorization.body, b.report, b.attestation)
    requires Covered(p.candidate, b) && RecordContract(b.signature) && b.signature.statement.body.key.keyId == p.keyId
    requires b.authorization.body.keyId == PublicKeyId(p.approvals.key)
    requires b.authorization.body.generation == p.approvals.generation
    requires SignatureValid(p.candidate, b.authorization, b.signature, v.releaseKey) <==> Some(v.releaseKey) == p.metadata.publicKey
    requires EvidenceAccepted(v, PublicKeyId(p.approvals.key), b) <==> AttestationInForce(v, p, b)
    ensures Accepts(v, p.candidate, b) <==> InForce(v, p, b)
  {
  }

  lemma HonestEvidence(p: Pipeline, b: Bundle, signed: Signed)
    requires Honest(p, b, signed)
    ensures AuthorizationContract(b.authorization) && Names(b.authorization.body, b.report, b.attestation)
    ensures Covered(p.candidate, b)
    ensures b.authorization.body.keyId == PublicKeyId(p.approvals.key)
    ensures b.authorization.body.generation == p.approvals.generation
  {
    assert b.attestation.statement == StatementOf(p.approvals);
  }

  lemma HonestSignature(v: Verifier, p: Pipeline, b: Bundle, signed: Signed)
    requires SignedHonestly(p, b, signed)
    ensures RecordContract(b.signature) && b.signature.statement.body.key.keyId == p.keyId
    ensures SignatureValid(p.candidate, b.authorization, b.signature, v.releaseKey) <==>
            Some(v.releaseKey) == p.metadata.publicKey
  {
    var q := SigningRequest(p.candidate, b.authorization, b.report, b.attestation, p.keyId);
    SignedRecordIsValid(p.policy, q, p.metadata, p.signingTime, signed);
  }

  lemma HonestAttestation(v: Verifier, p: Pipeline, b: Bundle, signed: Signed)
    requires Honest(p, b, signed)
    ensures EvidenceAccepted(v, PublicKeyId(p.approvals.key), b) <==> AttestationInForce(v, p, b)
  {
    var id := PublicKeyId(p.approvals.key);
    if id in v.attestationKeys && v.attestationKeys[id] == p.approvals.key {
      FinalizedIsValidIff(p.approvals, b.attestation, TrustOf(v));
    }
  }

  /** Nothing the evaluator failed gets past the first stage: the evidence behind an honest bundle met every
      gate, and all of it names the digest of this candidate. */
  lemma HonestBundlePassedEveryGate(e: Evidence, order: Order, p: Pipeline, b: Bundle, signed: Signed)
    requires Honest(p, b, signed) && b.report == Promoted(e, GovernedV1, order)
    ensures PassedGates(e) && Bound(e, ReleaseDigest, Sha256(p.candidate))
  {
    HonestEvidence(p, b, signed);
    ReportPassedEveryGate(e, order, p.candidate, b);
  }

  lemma ReportPassedEveryGate(e: Evidence, order: Order, candidate: Blob, b: Bundle)
    requires ReportOk(b.report) && Covered(candidate, b) && b.report == Promoted(e, GovernedV1, order)
    ensures PassedGates(e) && Bound(e, ReleaseDigest, Sha256(candidate))
  {
    PassedDemands(e, order);
    CandidateBound(e, order, candidate);
  }

  predicate PassedGates(e: Evidence) {
    && BindingGate(e) && SuitabilityGate(e) && e.coverage.Some? && CoverageGate(e, e.coverage.value)
    && ReleaseGate(e.release) && SafetyGate(Retrieval, e.retrieval) && AnswerGate(e.answer) && EdgeGate(e.edge)
  }

  lemma SubjectIsResolved(e: Evidence, order: Order)
    ensures var subject := SubjectOf(Promoted(e, GovernedV1, order));
            subject.Some? ==> Resolved(e, ReleaseDigest) == Some(subject.value.release)
  {
    ReportShape(e, GovernedV1, order);
  }

  lemma CandidateBound(e: Evidence, order: Order, candidate: Blob)
    requires BindingGate(e)
    ensures var subject := SubjectOf(Promoted(e, GovernedV1, order));
            subject.Some? && subject.value.release == Sha256(candidate) ==> Bound(e, ReleaseDigest, Sha256(candidate))
  {
    SubjectIsResolved(e, order);
    assert ReleaseDigest in FIELDS && FieldBound(e, ReleaseDigest);
  }

  lemma PassedDemands(e: Evidence, order: Order)
    ensures ReportOk(Promoted(e, GovernedV1, order)) ==> PassedGates(e)
  {
    PassIff(e, GovernedV1, order);
  }
}
