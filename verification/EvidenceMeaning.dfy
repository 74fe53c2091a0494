/**
 The governed evidence chain on the fields of its four records: what a passing report, a valid attestation, an
 authorization and a release signature are, whoever checks them.
 */
module EvidenceMeaning {
  import opened Prelude
  import opened Crypto
  import opened Sorting
  import opened Promotion
  import opened EvaluationAttestation
  import opened ReleaseSigning
  import opened GovernedDistribution

  // ---------------------------------------------------------------- the records

  /** A governed report that passed: all six layers, no failure, every digest bound. */
  predicate Passed(r: Report) {
    && r.id == Sha256(r.body) && r.body.profile == GovernedV1 && r.body.decision == PASS && r.body.failures == []
    && r.body.layers == Layers(true, Some(true), true, true, true, true)
    && forall f: Field :: f in r.body.binding && r.body.binding[f].Some?
  }

  /** One approval as recorded: by one of the two roles, inside the validity window and not after signing. */
  predicate Approves(b: AttestationBody, i: nat)
    requires i < |b.approvals|
  {
    var a := b.approvals[i].body;
    && b.approvals[i].digest == Sha256(a) && a.approves && (a.role == EvaluationOwner || a.role == ReleaseApprover)
    && b.lifecycle.from <= a.approvedAt && a.approvedAt <= b.signedAt
    && a.identity != b.executor && a.identity != b.signer
    && 3 <= |a.identity| <= 256 && 1 <= |a.organization| <= 256 && 1 <= |a.group| <= 128
  }

  /** Two to eight approvals of different people from different groups, both roles among them. */
  predicate Approved(b: AttestationBody) {
    && 2 <= |b.approvals| <= 8 && (forall i :: 0 <= i < |b.approvals| ==> Approves(b, i))
    && (forall i, j :: 0 <= i < j < |b.approvals| ==>
          b.approvals[i].body.identity != b.approvals[j].body.identity && b.approvals[i].body.group != b.approvals[j].body.group)
    && (exists i :: 0 <= i < |b.approvals| && b.approvals[i].body.role == EvaluationOwner)
    && exists i :: 0 <= i < |b.approvals| && b.approvals[i].body.role == ReleaseApprover
  }

  /** An attestation in force at `asOf`: signed by the key, of this report, inside its windows, never revoked. */
  predicate InForceAt(a: Attestation, r: Report, key: PublicKey, asOf: int, revokedIds: set<Digest<AttestationBody>>,
                      revokedKeys: set<KeyId>) {
    var b := a.statement.body;
    && a.statement.id == Sha256(b) && a.signature == SignedBy(key, a.statement) && b.keyId == PublicKeyId(key)
    && b.subject.reportId == r.id && b.subject.reportDigest == Sha256(r)
    && ReleaseDigest in r.body.binding && r.body.binding[ReleaseDigest] == Some(b.subject.release)
    && b.subject.profile == GovernedV1 && b.subject.decision == PASS
    && b.lifecycle.from <= b.signedAt <= asOf < b.lifecycle.until
    && b.keyWindow.from <= b.signedAt && asOf < b.keyWindow.until
    && b.snapshot.checkedAt <= b.signedAt && b.snapshot.generation >= 1
    && b.snapshot.attestationRevokedAt == None && b.snapshot.attestationReason == None
    && b.snapshot.keyRevokedAt == None && b.snapshot.keyReason == None
    && a.statement.id !in revokedIds && b.keyId !in revokedKeys
    && b.signer != b.executor && 3 <= |b.executor| <= 256 && 3 <= |b.signer| <= 256
    && Approved(b)
  }

  /** The authorization is of this candidate and names report and attestation by ID and digest. */
  predicate Authorizes(z: Authorization, candidate: Blob, r: Report, a: Attestation) {
    && z.id == Sha256(z.body) && z.body.candidate == Sha256(candidate)
    && z.body.reportId == r.id && z.body.reportDigest == Sha256(r)
    && z.body.attestationId == a.statement.id && z.body.attestationDigest == Sha256(a)
    && z.body.keyId == a.statement.body.keyId && z.body.generation == a.statement.body.snapshot.generation
    && z.body.bindings.reportDigest == Sha256(r) && z.body.bindings.attestationDigests == [Sha256(a)]
  }

  /** Both signatures of the record are the key's: on a statement of this authorization, made while the key was
      active and inside its window, and on the candidate itself. */
  predicate ReleaseSigned(s: ReleaseRecord, z: Authorization, candidate: Blob, key: PublicKey) {
    var b := s.statement.body;
    && s.signature == SignedBy(key, s.statement) && s.manifestSignature == SignedBy(key, candidate)
    && s.statement.id == Sha256(b) && b.candidate == Sha256(candidate)
    && b.authorizationId == z.id && b.authorizationDigest == Sha256(z)
    && b.key.window.from <= b.signedAt < b.key.window.until
    && (b.key.rotation == RotationActive || b.key.rotation == RotationOverlap)
    && b.key.generation >= 1 && b.key.revocationGeneration >= 1
    && 1 <= |b.bindings.attestationDigests| <= 8
    && forall i, j :: 0 <= i < j < |b.bindings.attestationDigests| ==>
         b.bindings.attestationDigests[i] != b.bindings.attestationDigests[j]
  }

  // ---------------------------------------------------------------- the checks mean that

  lemma EveryField(f: Field)
    ensures f in FIELDS
  {
    var i := match f
      case ReleaseDigest => 0
      case CorpusDigest => 1
      case EvalSetDigest => 2
      case ModelDigest => 3
      case EmbeddingModelDigest => 4
      case ChunkerDigest => 5
      case PolicyDigest => 6
      case SourceAggregateDigest => 7
      case DocumentAggregateDigest => 8
      case CaseAggregateDigest => 9;
    assert FIELDS[i] == f;
  }

  lemma SomeBool(o: Option<bool>)
    ensures o == None || o == Some(true) || o == Some(false)
  {
    if o.Some? {
      assert o == Some(o.value);
      if o.value {
        assert o == Some(true);
      } else {
        assert o == Some(false);
      }
    }
  }

  lemma ReportOkIff(r: Report)
    ensures ReportOk(r) <==> Passed(r)
  {
    forall f: Field ensures f in FIELDS {
      EveryField(f);
    }
    if Passed(r) {
      assert r.body.binding.Keys == set f | f in FIELDS;
    }
    if ReportOk(r) {
      SomeBool(r.body.layers.coverage);
      forall f: Field ensures f in r.body.binding && r.body.binding[f].Some? {
        assert f in r.body.binding.Keys;
      }
    }
  }

  lemma ApprovalsIff(b: AttestationBody)
    requires b.signer != b.executor
    ensures ApprovalsShape(b) <==> Approved(b)
  {
    forall i | 0 <= i < |b.approvals|
      ensures Approves(b, i) <==>
              && ApprovalShape(b.approvals[i]) && b.lifecycle.from <= b.approvals[i].body.approvedAt <= b.signedAt
              && b.approvals[i].body.identity != b.executor && b.approvals[i].body.identity != b.signer
    {
    }
    if Approved(b) {
      assert forall i :: 0 <= i < |b.approvals| ==> Approves(b, i);
      assert BothRoles(b.approvals) && Independent(b.approvals) && Apart(b.approvals, b.executor, b.signer);
    }
    if ApprovalsShape(b) {
      assert forall i :: 0 <= i < |b.approvals| ==> Approves(b, i);
    }
  }

  /** A report passed and its attestation verifies exactly when the fields say so. */
  lemma AttestationValidIff(a: Attestation, r: Report, key: PublicKey, t: Trust)
    ensures AttestationValid(a, r, key, t) <==> Passed(r) && InForceAt(a, r, key, t.asOf, t.revokedIds, t.revokedKeys)
  {
    ReportOkIff(r);
    if a.statement.body.signer != a.statement.body.executor {
      ApprovalsIff(a.statement.body);
    }
  }

  lemma NamesIff(z: Authorization, candidate: Blob, r: Report, a: Attestation)
    requires z.body.candidate == Sha256(candidate) && a.statement.body.snapshot.generation >= 1
    ensures AuthorizationContract(z) && Names(z.body, r, a) <==> Authorizes(z, candidate, r, a)
  {
  }

  lemma SignatureValidIff(candidate: Blob, z: Authorization, s: ReleaseRecord, key: PublicKey)
    requires AuthorizationContract(z) && z.body.candidate == Sha256(candidate)
    ensures SignatureValid(candidate, z, s, key) <==> ReleaseSigned(s, z, candidate, key)
  {
  }

  // ---------------------------------------------------------------- making attestations and authorizations

  /** An approval as it is handed in. */
  predicate Suits(q: AttestationRequest, i: nat)
    requires i < |q.approvals|
  {
    var a := q.approvals[i];
    && a.approves && (a.role == EvaluationOwner || a.role == ReleaseApprover)
    && q.lifecycle.from <= a.approvedAt && a.approvedAt <= q.signedAt
    && a.identity != q.executor && a.identity != q.signer
    && 3 <= |a.identity| <= 256 && 1 <= |a.organization| <= 256 && 1 <= |a.group| <= 128
  }

  /** A request to attest that ends in a record: a passed report, its release digest, windows around the time of
      signing, and two to eight independent approvals of both roles. */
  predicate Attestable(q: AttestationRequest) {
    && Passed(q.report) && q.generation >= 1 && q.checkedAt <= q.signedAt
    && q.lifecycle.from <= q.signedAt < q.lifecycle.until && q.keyWindow.from <= q.signedAt < q.keyWindow.until
    && q.executor != q.signer && 3 <= |q.executor| <= 256 && 3 <= |q.signer| <= 256
    && 2 <= |q.approvals| <= 8 && (forall i :: 0 <= i < |q.approvals| ==> Suits(q, i))
    && (forall i, j :: 0 <= i < j < |q.approvals| ==>
          q.approvals[i].identity != q.approvals[j].identity && q.approvals[i].group != q.approvals[j].group)
    && (exists i :: 0 <= i < |q.approvals| && q.approvals[i].role == EvaluationOwner)
    && exists i :: 0 <= i < |q.approvals| && q.approvals[i].role == ReleaseApprover
  }

  lemma ApprovalsOkIff(q: AttestationRequest)
    requires AllFit(q.approvals, q.lifecycle.from)
    ensures ApprovalsOk(q.approvals, q.executor, q.signer, q.signedAt) <==>
            && q.executor != q.signer && (forall i :: 0 <= i < |q.approvals| ==> Suits(q, i))
            && (forall i, j :: 0 <= i < j < |q.approvals| ==>
                  q.approvals[i].identity != q.approvals[j].identity && q.approvals[i].group != q.approvals[j].group)
            && (exists i :: 0 <= i < |q.approvals| && q.approvals[i].role == EvaluationOwner)
            && exists i :: 0 <= i < |q.approvals| && q.approvals[i].role == ReleaseApprover
  {
    var ps := PreparedOf(q.approvals);
    forall i | 0 <= i < |q.approvals|
      ensures ps[i].body == q.approvals[i]
      ensures Suits(q, i) <==>
              ApprovalAllowed(q.approvals[i], q.signedAt) && q.approvals[i].identity != q.executor && q.approvals[i].identity != q.signer
    {
      assert ApprovalFits(q.approvals[i], q.lifecycle.from);
    }
    if ApprovalsOk(q.approvals, q.executor, q.signer, q.signedAt) {
      assert exists i :: 0 <= i < |ps| && ps[i].body.role == EvaluationOwner;
      assert exists i :: 0 <= i < |ps| && ps[i].body.role == ReleaseApprover;
    }
  }

  /** A request is prepared, signed with its key and finalized into a record exactly when it is attestable. */
  lemma AttestedIff(q: AttestationRequest)
    ensures Attests(q) <==> Attestable(q)
  {
    if Preparable(q) && SubjectOf(q.report).Some? {
      FinalizedIff(q);
    }
    PreparedFinalizableIff(q);
    ReportOkIff(q.report);
  }

  /** The request is accepted, and signed with its key and finalized it is a record. */
  ghost predicate Attests(q: AttestationRequest) {
    && Preparable(q) && SubjectOf(q.report).Some?
    && Finalize(StatementOf(q), SignedBy(q.key, StatementOf(q)), q.key).Some?
  }

  lemma PreparedFinalizableIff(q: AttestationRequest)
    ensures Preparable(q) && Finalizable(q) <==> Attestable(q)
  {
    ReportOkIff(q.report);
    if AllFit(q.approvals, q.lifecycle.from) {
      ApprovalsOkIff(q);
    }
    if Attestable(q) {
      forall i | 0 <= i < |q.approvals| ensures ApprovalFits(q.approvals[i], q.lifecycle.from) {
        assert Suits(q, i);
      }
    }
  }

  /** The statement about a passed report says what the request says, with nothing revoked. */
  lemma StatementOnFields(q: AttestationRequest)
    requires Passed(q.report)
    ensures SubjectOf(q.report).Some?
    ensures var s := StatementOf(q);
            var b := s.body;
            && s.id == Sha256(b)
            && b.subject == Subject(q.report.id, Sha256(q.report), q.report.body.binding[ReleaseDigest].value, GovernedV1, PASS)
            && b.executor == q.executor && b.signer == q.signer && b.signedAt == q.signedAt && b.lifecycle == q.lifecycle
            && b.snapshot.generation == q.generation && b.snapshot.checkedAt == q.checkedAt
            && b.snapshot.attestationRevokedAt == b.snapshot.keyRevokedAt == None
            && b.snapshot.attestationReason == b.snapshot.keyReason == None
            && b.keyId == PublicKeyId(q.key) && b.keyWindow == q.keyWindow
  {
    assert q.report.body.binding[ReleaseDigest].Some?;
  }

  /** The approvals of a statement are those of the request, each with its digest, the evaluation owners' before the
      release approvers', and by identity among each. */
  lemma ApprovalsOnFields(q: AttestationRequest, a: Prepared)
    requires Passed(q.report) && SubjectOf(q.report).Some?
    ensures var ps := StatementOf(q).body.approvals;
            && |ps| == |q.approvals|
            && (a in ps <==> a.body in q.approvals && a.digest == Sha256(a.body))
            && (forall i, j :: 0 <= i < j < |ps| && ps[j].body.role == EvaluationOwner ==> ps[i].body.role == EvaluationOwner)
            && (forall i, j :: 0 <= i < j < |ps| && ps[i].body.role == ps[j].body.role ==> StringLe(ps[i].body.identity, ps[j].body.identity))
  {
    var ps, given := StatementOf(q).body.approvals, PreparedOf(q.approvals);
    SortedApprovals(q.approvals);
    PermutationMembers(ps, given, a);
    assert |ps| == |multiset(ps)| == |multiset(given)|;
    if a.body in q.approvals && a.digest == Sha256(a.body) {
      var i :| 0 <= i < |q.approvals| && q.approvals[i] == a.body;
      assert given[i] == a;
    }
    forall i, j | 0 <= i < j < |ps| ensures ByRoleAndIdentity(ps[i], ps[j]) {}
  }

  /** Nothing but the key's own signature on the statement makes a record of it. */
  lemma FinalizedIsSigned(s: Statement, signature: Signature<Statement>, key: PublicKey)
    ensures Finalize(s, signature, key).Some? ==>
              signature == SignedBy(key, s) && Finalize(s, signature, key).value == Attestation(s, signature)
  {
  }

  /** An authorization is given exactly for the release of a report that passed and whose attestation is in force, and
      is of that release, that report and that attestation, at that time. */
  lemma AuthorizedIff(candidate: Blob, r: Report, a: Attestation, key: PublicKey, t: Trust, z: Authorization)
    ensures Authorize(candidate, r, a, key, t) == Some(z) <==>
            && Passed(r) && InForceAt(a, r, key, t.asOf, t.revokedIds, t.revokedKeys)
            && a.statement.body.subject.release == Sha256(candidate)
            && Authorizes(z, candidate, r, a) && z.body.authorizedAt == t.asOf
  {
    AttestationValidIff(a, r, key, t);
  }

  // ---------------------------------------------------------------- the signer

  /** What the signer demands of a call, on its fields. */
  predicate MaySign(p: Policy, c: Call) {
    var q, m, z := c.request, c.metadata, c.request.authorization.body;
    && 0 < |q.candidate| <= p.maximumBytes
    && q.keyId in p.allowedKeys
    && z.keyId in p.trusted && z.generation >= p.minimumAttestationGeneration
    && z.authorizedAt <= c.now && c.now <= z.authorizedAt + p.maximumAge
    && q.attestation.statement.body.signedAt <= z.authorizedAt
    && Passed(q.report) && InForceAt(q.attestation, q.report, p.trusted[z.keyId], c.now, p.revokedIds, p.revokedKeys)
    && q.attestation.statement.body.subject.release == Sha256(q.candidate)
    && Authorizes(q.authorization, q.candidate, q.report, q.attestation)
    && m.keyId == q.keyId && m.isReleaseKey && m.isEd25519 && m.publicKey.Some?
    && (m.rotation == RotationActive || m.rotation == RotationOverlap)
    && m.generation >= 1 && m.revocationGeneration >= p.minimumKeyGeneration
    && m.window.from <= c.now < m.window.until
  }

  lemma UsableIff(p: Policy, c: Call)
    ensures Usable(p, c) <==> MaySign(p, c)
  {
    var q, z := c.request, c.request.authorization;
    if z.body.keyId in p.trusted {
      AttestationValidIff(q.attestation, q.report, p.trusted[z.body.keyId], Trust(c.now, p.revokedIds, p.revokedKeys));
    }
    if z.body.candidate == Sha256(q.candidate) && q.attestation.statement.body.snapshot.generation >= 1 {
      NamesIff(z, q.candidate, q.report, q.attestation);
    }
  }

  /** A record is returned only for a call that may be signed, and no row of the table is ever replaced. */
  lemma RecordOnlyIfAllowed(p: Policy, table: Table, c: Call, s: Signed)
    ensures Signing(p, table, c, s).1.Some? ==> MaySign(p, c)
    ensures forall slot :: slot in table ==> slot in Signing(p, table, c, s).0 && Signing(p, table, c, s).0[slot] == table[slot]
  {
    UsableIff(p, c);
  }

  /** What a call adds to the table is a record of exactly this call, signed twice by the key. */
  lemma NewRecordIsSigned(p: Policy, table: Table, c: Call, s: Signed)
    requires PolicyOk(p) && Signing(p, table, c, s).0 != table
    ensures var record := Signing(p, table, c, s).1;
            && record.Some? && SlotOf(c) !in table && MaySign(p, c)
            && ReleaseSigned(record.value, c.request.authorization, c.request.candidate, c.metadata.publicKey.value)
            && record.value.statement.body.signedAt == c.now
            && record.value.statement.body.key == KeyRecordOf(c.metadata)
  {
    UsableIff(p, c);
    var record := ReleaseRecord(StatementOfCall(c), s.statement, s.candidate);
    SignedRecordIsValid(p, c.request, c.metadata, c.now, s);
    SignatureValidIff(c.request.candidate, c.request.authorization, record, c.metadata.publicKey.value);
  }

  /** A call past the authorization's maximum age is refused, whatever the table holds. */
  lemma TooOldIsRefused(p: Policy, table: Table, c: Call, s: Signed)
    requires c.now > c.request.authorization.body.authorizedAt + p.maximumAge
    ensures Signing(p, table, c, s) == (table, None)
  {
    UsableIff(p, c);
  }

  // ---------------------------------------------------------------- the verifier

  /** What the verifier of governed releases demands, on the fields of candidate and bundle. */
  predicate MayInstall(v: Verifier, candidate: Blob, b: Bundle) {
    var z := b.authorization.body;
    && |candidate| <= 4 * 1024 * 1024 && v.profileOf(candidate) == Some(GovernedV1)
    && z.generation >= v.minimumGeneration && z.keyId in v.attestationKeys
    && Passed(b.report) && InForceAt(b.attestation, b.report, v.attestationKeys[z.keyId], v.asOf, v.revokedIds, v.revokedKeys)
    && b.attestation.statement.body.subject.release == Sha256(candidate)
    && Authorizes(b.authorization, candidate, b.report, b.attestation)
    && b.signature.statement.body.key.keyId == v.releaseKeyId
    && ReleaseSigned(b.signature, b.authorization, candidate, v.releaseKey)
  }

  /** A candidate and its bundle are accepted if and only if report, attestation, authorization and signature are in
      force and bind one another and the candidate. */
  lemma AcceptsIff(v: Verifier, candidate: Blob, b: Bundle)
    ensures Accepts(v, candidate, b) <==> MayInstall(v, candidate, b)
  {
    var z := b.authorization.body;
    if z.keyId in v.attestationKeys {
      AttestationValidIff(b.attestation, b.report, v.attestationKeys[z.keyId], TrustOf(v));
    }
    if z.candidate == Sha256(candidate) && b.attestation.statement.body.snapshot.generation >= 1 {
      NamesIff(b.authorization, candidate, b.report, b.attestation);
    }
    if z.candidate == Sha256(candidate) && AuthorizationContract(b.authorization) {
      SignatureValidIff(candidate, b.authorization, b.signature, v.releaseKey);
    }
  }
}
