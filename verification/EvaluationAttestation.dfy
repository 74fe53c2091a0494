/**
 Attesting that a promotion report passed and authorizing the signature of exactly its candidate. Every
 record names the digest of the one before it; times are whole numbers.
 */
module EvaluationAttestation {
  import opened Prelude
  import opened Crypto
  import opened Sorting
  import opened Promotion

  datatype Role = EvaluationOwner | ReleaseApprover | OtherRole(text: string)

  datatype Approval = Approval(
    identity: string, role: Role, organization: string, group: string, approves: bool, approvedAt: int)

  datatype Prepared = Prepared(body: Approval, digest: Digest<Approval>)

  datatype Subject = Subject(
    reportId: Digest<ReportBody>, reportDigest: Digest<Report>, release: Digest<Blob>, profile: Profile,
    decision: Decision)

  /** A revocation's time and reason may be set apart only in a record that breaks the contract. */
  datatype Snapshot = Snapshot(
    generation: int, checkedAt: int, attestationRevokedAt: Option<int>, attestationReason: Option<string>,
    keyRevokedAt: Option<int>, keyReason: Option<string>)

  datatype Window = Window(from: int, until: int)

  datatype AttestationBody = AttestationBody(
    subject: Subject, executor: string, approvals: seq<Prepared>, lifecycle: Window, snapshot: Snapshot,
    signer: string, signedAt: int, keyId: KeyId, keyWindow: Window)

  datatype Statement = Statement(id: Digest<AttestationBody>, body: AttestationBody)

  datatype Attestation = Attestation(statement: Statement, signature: Signature<Statement>)

  predicate Inside(w: Window, t: int) {
    w.from <= t < w.until
  }

  // ---------------------------------------------------------------- promotion reports

  predicate BindingComplete(b: map<Field, Option<Digest<Blob>>>) {
    b.Keys == (set f | f in FIELDS) && forall f :: f in b ==> b[f].Some?
  }

  /** `_validate_promotion_report` */
  predicate ReportOk(r: Report) {
    && r.id == Sha256(r.body)
    && r.body.profile == GovernedV1 && r.body.decision == PASS && r.body.failures == []
    && r.body.layers.coverage.Some? && AllPassed(r.body.layers)
    && BindingComplete(r.body.binding)
  }

  /** A report is fit to be attested exactly when it passed under the governed profile. */
  lemma EvaluatedReportOkIff(e: Evidence, profile: Profile, order: Order)
    ensures ReportOk(Promoted(e, profile, order)) <==>
            profile == GovernedV1 && Promoted(e, profile, order).body.decision == PASS
  {
    ReportShape(e, profile, order);
    PassShape(e, profile, order);
    if Promoted(e, profile, order).body.decision == PASS {
      PassedBindingComplete(e);
    }
  }

  lemma PassedBindingComplete(e: Evidence)
    requires BindingGate(e)
    ensures BindingComplete(ResolvedBinding(e))
  {
    assert ResolvedBinding(e).Keys == set f | f in FIELDS;
    forall f | f in ResolvedBinding(e) ensures ResolvedBinding(e)[f].Some? {
      assert f in FIELDS && FieldBound(e, f);
    }
  }

  // ---------------------------------------------------------------- approvals

  predicate ApprovalAllowed(a: Approval, signedAt: int) {
    a.approves && !a.role.OtherRole? && a.approvedAt <= signedAt
  }

  predicate Independent(ps: seq<Prepared>) {
    && (forall i, j :: 0 <= i < j < |ps| ==> ps[i].body.identity != ps[j].body.identity)
    && forall i, j :: 0 <= i < j < |ps| ==> ps[i].body.group != ps[j].body.group
  }

  predicate BothRoles(ps: seq<Prepared>) {
    && (exists i :: 0 <= i < |ps| && ps[i].body.role == EvaluationOwner)
    && (exists i :: 0 <= i < |ps| && ps[i].body.role == ReleaseApprover)
    && forall i :: 0 <= i < |ps| ==> !ps[i].body.role.OtherRole?
  }

  predicate Apart(ps: seq<Prepared>, executor: string, signer: string) {
    && (forall i :: 0 <= i < |ps| ==> ps[i].body.identity != executor && ps[i].body.identity != signer)
    && signer != executor
  }

  function RoleRank(r: Role): int {
    match r
    case EvaluationOwner => 0
    case ReleaseApprover => 1
    case OtherRole(_) => 2
  }

  predicate ByRoleAndIdentity(a: Prepared, b: Prepared) {
    || RoleRank(a.body.role) < RoleRank(b.body.role)
    || (RoleRank(a.body.role) == RoleRank(b.body.role) && StringLe(a.body.identity, b.body.identity))
  }

  function PreparedOf(approvals: seq<Approval>): (r: seq<Prepared>)
    ensures |r| == |approvals| && forall i :: 0 <= i < |r| ==> r[i] == Prepared(approvals[i], Sha256(approvals[i]))
  {
    seq(|approvals|, i requires 0 <= i < |approvals| => Prepared(approvals[i], Sha256(approvals[i])))
  }

  ghost predicate ApprovalsOk(approvals: seq<Approval>, executor: string, signer: string, signedAt: int) {
    && (forall i :: 0 <= i < |approvals| ==> ApprovalAllowed(approvals[i], signedAt))
    && BothRoles(PreparedOf(approvals)) && Independent(PreparedOf(approvals)) && Apart(PreparedOf(approvals), executor, signer)
  }

  method PrepareApprovals(approvals: seq<Approval>, executor: string, signer: string, signedAt: int)
    returns (result: Option<seq<Prepared>>)
    ensures result.Some? <==> ApprovalsOk(approvals, executor, signer, signedAt)
    ensures result.Some? ==> result.value == Sort(PreparedOf(approvals), ByRoleAndIdentity)
  {
    var prepared: seq<Prepared> := [];
    for i := 0 to |approvals|
      invariant prepared == PreparedOf(approvals[..i])
      invariant forall k :: 0 <= k < i ==> ApprovalAllowed(approvals[k], signedAt)
    {
      if !ApprovalAllowed(approvals[i], signedAt) {
        return None;
      }
      prepared := prepared + [Prepared(approvals[i], Sha256(approvals[i]))];
    }
    assert approvals[..|approvals|] == approvals;
    if !BothRoles(prepared) || !Independent(prepared) || !Apart(prepared, executor, signer) {
      return None;
    }
    return Some(Sort(prepared, ByRoleAndIdentity));
  }

  // ---------------------------------------------------------------- statement, signature, record

  datatype AttestationRequest = AttestationRequest(
    report: Report, approvals: seq<Approval>, executor: string, lifecycle: Window, generation: int, checkedAt: int,
    signer: string, signedAt: int, key: PublicKey, keyWindow: Window)

  function SubjectOf(r: Report): Option<Subject> {
    if ReleaseDigest in r.body.binding && r.body.binding[ReleaseDigest].Some?
    then Some(Subject(r.id, Sha256(r), r.body.binding[ReleaseDigest].value, r.body.profile, r.body.decision))
    else None
  }

  lemma OkReportHasSubject(r: Report)
    requires ReportOk(r)
    ensures SubjectOf(r).Some?
  {
    assert ReleaseDigest in FIELDS;
  }

  ghost predicate Preparable(q: AttestationRequest) {
    && ReportOk(q.report) && q.executor != "" && q.signer != "" && q.generation >= 1
    && Inside(q.lifecycle, q.signedAt) && Inside(q.keyWindow, q.signedAt) && q.checkedAt <= q.signedAt
    && ApprovalsOk(q.approvals, q.executor, q.signer, q.signedAt)
  }

  function StatementOf(q: AttestationRequest): Statement
    requires SubjectOf(q.report).Some?
  {
    var body := AttestationBody(
      SubjectOf(q.report).value, q.executor, Sort(PreparedOf(q.approvals), ByRoleAndIdentity), q.lifecycle,
      Snapshot(q.generation, q.checkedAt, None, None, None, None), q.signer, q.signedAt, PublicKeyId(q.key), q.keyWindow);
    Statement(Sha256(body), body)
  }

  predicate Sized(s: string, lo: nat, hi: nat) {
    lo <= |s| <= hi
  }

  predicate RevocationPaired(at: Option<int>, reason: Option<string>) {
    at.Some? == reason.Some? && (reason.Some? ==> Sized(reason.value, 1, 512))
  }

  predicate ApprovalShape(p: Prepared) {
    && Sized(p.body.identity, 3, 256) && Sized(p.body.organization, 1, 256) && Sized(p.body.group, 1, 128)
    && !p.body.role.OtherRole? && p.body.approves && p.digest == Sha256(p.body)
  }

  predicate ApprovalsShape(b: AttestationBody) {
    && 2 <= |b.approvals| <= 8
    && (forall i :: 0 <= i < |b.approvals| ==> ApprovalShape(b.approvals[i]))
    && (forall i :: 0 <= i < |b.approvals| ==> b.lifecycle.from <= b.approvals[i].body.approvedAt <= b.signedAt)
    && Independent(b.approvals) && BothRoles(b.approvals) && Apart(b.approvals, b.executor, b.signer)
  }

  /** The schema and the semantic rules of an attestation record. */
  predicate AttestationContract(a: Attestation) {
    var b := a.statement.body;
    && b.subject.profile == GovernedV1 && b.subject.decision == PASS
    && Sized(b.executor, 3, 256) && Sized(b.signer, 3, 256) && b.snapshot.generation >= 1
    && Inside(b.lifecycle, b.signedAt) && Inside(b.keyWindow, b.signedAt) && b.snapshot.checkedAt <= b.signedAt
    && RevocationPaired(b.snapshot.attestationRevokedAt, b.snapshot.attestationReason)
    && RevocationPaired(b.snapshot.keyRevokedAt, b.snapshot.keyReason)
    && ApprovalsShape(b)
    && a.statement.id == Sha256(b)
  }

  /** `finalize_attestation` */
  function Finalize(s: Statement, signature: Signature<Statement>, key: PublicKey): Option<Attestation> {
    if Verifies(key, s, signature) && AttestationContract(Attestation(s, signature)) then Some(Attestation(s, signature))
    else None
  }

  lemma SortedApprovals(approvals: seq<Approval>)
    ensures Permutation(Sort(PreparedOf(approvals), ByRoleAndIdentity), PreparedOf(approvals))
    ensures Sorted(Sort(PreparedOf(approvals), ByRoleAndIdentity), ByRoleAndIdentity)
  {
    forall x, y ensures ByRoleAndIdentity(x, y) || ByRoleAndIdentity(y, x) {
      StringLeTotal(x.body.identity, y.body.identity);
    }
    forall x, y, z | ByRoleAndIdentity(x, y) && ByRoleAndIdentity(y, z) ensures ByRoleAndIdentity(x, z) {
      if RoleRank(x.body.role) == RoleRank(y.body.role) == RoleRank(z.body.role) {
        StringLeTransitive(x.body.identity, y.body.identity, z.body.identity);
      }
    }
    SortSorts(PreparedOf(approvals), ByRoleAndIdentity);
  }

  lemma SortedKeepsRules(ps: seq<Prepared>, qs: seq<Prepared>, executor: string, signer: string)
    requires Permutation(ps, qs) && BothRoles(ps) && Independent(ps) && Apart(ps, executor, signer)
    ensures BothRoles(qs) && Independent(qs) && Apart(qs, executor, signer)
  {
    forall p ensures p in ps <==> p in qs {
      PermutationMembers(ps, qs, p);
    }
    assert forall i :: 0 <= i < |qs| ==> qs[i] in ps;
    assert forall i :: 0 <= i < |ps| ==> ps[i] in qs;
    PermutationKeepsDistinct(ps, qs, (p: Prepared) => p.body.identity);
    PermutationKeepsDistinct(ps, qs, (p: Prepared) => p.body.group);
  }

  /** What finalizing demands of a prepared statement beyond what preparing checked. */
  ghost predicate Finalizable(q: AttestationRequest) {
    && Sized(q.executor, 3, 256) && Sized(q.signer, 3, 256) && 2 <= |q.approvals| <= 8
    && AllFit(q.approvals, q.lifecycle.from)
  }

  /** What the record asks of one approval, beyond its being allowed. */
  predicate ApprovalFits(a: Approval, from: int) {
    a.approvedAt >= from && Sized(a.identity, 3, 256) && Sized(a.organization, 1, 256) && Sized(a.group, 1, 128)
  }

  lemma ShapeOfOne(a: Approval, from: int, signedAt: int)
    requires ApprovalAllowed(a, signedAt)
    ensures ApprovalShape(Prepared(a, Sha256(a))) && from <= a.approvedAt <= signedAt <==> ApprovalFits(a, from)
  {
  }

  lemma AllFitIff(approvals: seq<Approval>, sorted: seq<Prepared>, from: int, signedAt: int)
    requires Permutation(sorted, PreparedOf(approvals))
    requires forall i :: 0 <= i < |approvals| ==> ApprovalAllowed(approvals[i], signedAt)
    ensures (forall i :: 0 <= i < |sorted| ==> ApprovalShape(sorted[i]) && from <= sorted[i].body.approvedAt <= signedAt)
            <==> AllFit(approvals, from)
  {
    var ps := PreparedOf(approvals);
    forall p ensures p in ps <==> p in sorted {
      PermutationMembers(sorted, ps, p);
    }
    forall i | 0 <= i < |approvals|
      ensures ApprovalShape(ps[i]) && from <= ps[i].body.approvedAt <= signedAt <==> ApprovalFits(approvals[i], from)
      ensures ps[i] in sorted
    {
      ShapeOfOne(approvals[i], from, signedAt);
    }
    assert forall i :: 0 <= i < |sorted| ==> sorted[i] in ps;
  }

  ghost predicate AllFit(approvals: seq<Approval>, from: int) {
    forall i :: 0 <= i < |approvals| ==> ApprovalFits(approvals[i], from)
  }

  lemma ShapeIsFit(b: AttestationBody, approvals: seq<Approval>)
    requires |b.approvals| == |approvals|
    requires BothRoles(b.approvals) && Independent(b.approvals) && Apart(b.approvals, b.executor, b.signer)
    requires (forall i :: 0 <= i < |b.approvals| ==>
                ApprovalShape(b.approvals[i]) && b.lifecycle.from <= b.approvals[i].body.approvedAt <= b.signedAt)
             <==> AllFit(approvals, b.lifecycle.from)
    ensures ApprovalsShape(b) <==> 2 <= |approvals| <= 8 && AllFit(approvals, b.lifecycle.from)
  {
  }

  /** Approvals that prepare well have the recorded shape exactly when they fit. */
  lemma ShapesIff(b: AttestationBody, approvals: seq<Approval>)
    requires ApprovalsOk(approvals, b.executor, b.signer, b.signedAt)
    requires b.approvals == Sort(PreparedOf(approvals), ByRoleAndIdentity)
    ensures ApprovalsShape(b) <==> 2 <= |approvals| <= 8 && AllFit(approvals, b.lifecycle.from)
  {
    SortedApprovals(approvals);
    PermutationLength(b.approvals, PreparedOf(approvals));
    SortedKeepsRules(PreparedOf(approvals), b.approvals, b.executor, b.signer);
    AllFitIff(approvals, b.approvals, b.lifecycle.from, b.signedAt);
    ShapeIsFit(b, approvals);
  }

  /** A prepared statement, signed, becomes a record exactly when every approval falls inside the validity
      window and texts and counts have the recorded sizes: preparing alone does not promise that. */
  lemma FinalizedIff(q: AttestationRequest)
    requires Preparable(q) && SubjectOf(q.report).Some?
    ensures Finalize(StatementOf(q), SignedBy(q.key, StatementOf(q)), q.key).Some? <==> Finalizable(q)
  {
    ShapesIff(StatementOf(q).body, q.approvals);
    assert SubjectOf(q.report).value.profile == GovernedV1;
  }

  // ---------------------------------------------------------------- verification and authorization

  datatype Trust = Trust(asOf: int, revokedIds: set<Digest<AttestationBody>>, revokedKeys: set<KeyId>)

  /** Valid, not expired and not revoked at the trusted time. */
  predicate Current(a: Attestation, t: Trust) {
    var b := a.statement.body;
    && b.signedAt <= t.asOf && Inside(b.lifecycle, t.asOf) && Inside(b.keyWindow, t.asOf)
    && b.snapshot.attestationRevokedAt.None? && b.snapshot.keyRevokedAt.None?
    && a.statement.id !in t.revokedIds && b.keyId !in t.revokedKeys
  }

  /** `verify_attestation` */
  predicate AttestationValid(a: Attestation, r: Report, key: PublicKey, t: Trust) {
    && AttestationContract(a) && ReportOk(r)
    && SubjectOf(r) == Some(a.statement.body.subject)
    && a.statement.body.keyId == PublicKeyId(key)
    && Current(a, t)
    && Verifies(key, a.statement, a.signature)
  }

  datatype Bindings = Bindings(reportDigest: Digest<Report>, attestationDigests: seq<Digest<Attestation>>)

  datatype AuthorizationBody = AuthorizationBody(
    candidate: Digest<Blob>, reportId: Digest<ReportBody>, reportDigest: Digest<Report>,
    attestationId: Digest<AttestationBody>, attestationDigest: Digest<Attestation>, keyId: KeyId, generation: int,
    bindings: Bindings, authorizedAt: int)

  datatype Authorization = Authorization(id: Digest<AuthorizationBody>, body: AuthorizationBody)

  predicate BindingsOk(b: Bindings) {
    && 1 <= |b.attestationDigests| <= 8
    && forall i, j :: 0 <= i < j < |b.attestationDigests| ==> b.attestationDigests[i] != b.attestationDigests[j]
  }

  predicate AuthorizationContract(z: Authorization) {
    z.id == Sha256(z.body) && z.body.generation >= 1 && BindingsOk(z.body.bindings)
  }

  /** The authorization names exactly this report and attestation. */
  predicate Names(z: AuthorizationBody, r: Report, a: Attestation) {
    && z.reportId == r.id && z.reportDigest == Sha256(r)
    && z.attestationId == a.statement.id && z.attestationDigest == Sha256(a)
    && z.keyId == a.statement.body.keyId && z.generation == a.statement.body.snapshot.generation
    && z.bindings == Bindings(Sha256(r), [Sha256(a)])
  }

  function AuthorizationOf(candidate: Blob, r: Report, a: Attestation, asOf: int): Authorization {
    var body := AuthorizationBody(
      Sha256(candidate), r.id, Sha256(r), a.statement.id, Sha256(a), a.statement.body.keyId,
      a.statement.body.snapshot.generation, Bindings(Sha256(r), [Sha256(a)]), asOf);
    Authorization(Sha256(body), body)
  }

  /** `authorize_release_signing` */
  function Authorize(candidate: Blob, r: Report, a: Attestation, key: PublicKey, t: Trust): (z: Option<Authorization>)
    ensures z.Some? ==> AuthorizationContract(z.value) && Names(z.value.body, r, a)
  {
    if AttestationValid(a, r, key, t) && SubjectOf(r).value.release == Sha256(candidate)
    then Some(AuthorizationOf(candidate, r, a, t.asOf)) else None
  }

  // ---------------------------------------------------------------- what an attestation establishes

  /** Two different people in different groups, one for each role, neither of them the executor or the
      signer, approved inside the validity window and not after signing. */
  ghost predicate TwoApproved(b: AttestationBody, i: nat, j: nat) {
    && i < |b.approvals| && j < |b.approvals|
    && var p, q := b.approvals[i].body, b.approvals[j].body;
       && p.role == EvaluationOwner && q.role == ReleaseApprover && p.approves && q.approves
       && p.identity != q.identity && p.group != q.group
       && {p.identity, q.identity} !! {b.executor, b.signer} && b.executor != b.signer
       && b.lifecycle.from <= p.approvedAt <= b.signedAt && b.lifecycle.from <= q.approvedAt <= b.signedAt
  }

  lemma ContractMeansTwoApproved(a: Attestation) returns (i: nat, j: nat)
    requires AttestationContract(a)
    ensures TwoApproved(a.statement.body, i, j)
  {
    var b := a.statement.body;
    i :| 0 <= i < |b.approvals| && b.approvals[i].body.role == EvaluationOwner;
    j :| 0 <= j < |b.approvals| && b.approvals[j].body.role == ReleaseApprover;
    assert ApprovalShape(b.approvals[i]) && ApprovalShape(b.approvals[j]);
  }

  /** A finalized attestation verifies against its report exactly while it is current: nothing else that
      verification checks can fail. */
  lemma FinalizedIsValidIff(q: AttestationRequest, a: Attestation, t: Trust)
    requires Preparable(q) && SubjectOf(q.report).Some?
    requires Finalize(StatementOf(q), SignedBy(q.key, StatementOf(q)), q.key) == Some(a)
    ensures AttestationValid(a, q.report, q.key, t) <==>
            && q.signedAt <= t.asOf < q.lifecycle.until && t.asOf < q.keyWindow.until
            && a.statement.id !in t.revokedIds && PublicKeyId(q.key) !in t.revokedKeys
  {
    assert SubjectOf(q.report).Some?;
  }
}
