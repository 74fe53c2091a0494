/** The protected signing boundary: what it checks before a key is used, what it returns, and what is replayed. */
module ReleaseSigning {
  import opened Prelude
  import opened Crypto
  import opened Promotion
  import opened EvaluationAttestation
  import opened SigningReplay

  datatype Rotation = RotationActive | RotationOverlap | Retired | RevokedKey

  /** What the key store says of a key; `publicKey` is `None` when it returns no Ed25519 key. */
  datatype KeyMetadata = KeyMetadata(
    keyId: string, isReleaseKey: bool, isEd25519: bool, generation: int, rotation: Rotation, revocationGeneration: int,
    window: Window, publicKey: Option<PublicKey>)

  datatype KeyRecord = KeyRecord(keyId: string, generation: int, rotation: Rotation, revocationGeneration: int, window: Window)

  datatype SignatureBody = SignatureBody(
    candidate: Digest<Blob>, authorizationId: Digest<AuthorizationBody>, authorizationDigest: Digest<Authorization>,
    bindings: Bindings, key: KeyRecord, signedAt: int)

  datatype ReleaseStatement = ReleaseStatement(id: Digest<SignatureBody>, body: SignatureBody)

  datatype ReleaseRecord = ReleaseRecord(
    statement: ReleaseStatement, signature: Signature<ReleaseStatement>, manifestSignature: Signature<Blob>)

  datatype Policy = Policy(
    allowedKeys: set<string>, trusted: map<KeyId, PublicKey>, minimumKeyGeneration: int,
    minimumAttestationGeneration: int, maximumAge: int, maximumBytes: int, revokedIds: set<Digest<AttestationBody>>,
    revokedKeys: set<KeyId>)

  /** `__post_init__` */
  predicate PolicyOk(p: Policy) {
    && p.allowedKeys != {} && |p.trusted| > 0
    && (forall k :: k in p.trusted ==> PublicKeyId(p.trusted[k]) == k)
    && p.minimumKeyGeneration >= 1 && p.minimumAttestationGeneration >= 1
    && 1 <= p.maximumAge <= 7 * 86400 && 1 <= p.maximumBytes <= 16 * 1024 * 1024
  }

  datatype SigningRequest = SigningRequest(
    candidate: Blob, authorization: Authorization, report: Report, attestation: Attestation, keyId: string)

  predicate AuthorizationCurrent(p: Policy, q: SigningRequest, now: int) {
    && 0 <= now - q.authorization.body.authorizedAt <= p.maximumAge
    && q.attestation.statement.body.signedAt <= q.authorization.body.authorizedAt
  }

  /** The evidence is trusted, and candidate, report, attestation and authorization bind each other. */
  predicate EvidenceOk(p: Policy, q: SigningRequest, now: int) {
    var z := q.authorization.body;
    && 0 < |q.candidate| <= p.maximumBytes
    && AuthorizationContract(q.authorization)
    && z.candidate == Sha256(q.candidate)
    && q.keyId in p.allowedKeys
    && z.keyId in p.trusted && z.generation >= p.minimumAttestationGeneration
    && AuthorizationCurrent(p, q, now)
    && AttestationValid(q.attestation, q.report, p.trusted[z.keyId], Trust(now, p.revokedIds, p.revokedKeys))
    && q.attestation.statement.body.subject.release == Sha256(q.candidate)
    && Names(z, q.report, q.attestation)
  }

  predicate KeyUsable(p: Policy, m: KeyMetadata, keyId: string, now: int) {
    && m.keyId == keyId && m.isReleaseKey && m.isEd25519
    && (m.rotation == RotationActive || m.rotation == RotationOverlap)
    && m.generation >= 1 && m.revocationGeneration >= p.minimumKeyGeneration
    && Inside(m.window, now) && m.publicKey.Some?
  }

  /** Everything but the public key. */
  function KeyRecordOf(m: KeyMetadata): KeyRecord {
    KeyRecord(m.keyId, m.generation, m.rotation, m.revocationGeneration, m.window)
  }

  function StatementFor(q: SigningRequest, m: KeyMetadata, now: int): ReleaseStatement {
    var body := SignatureBody(
      q.authorization.body.candidate, q.authorization.id, Sha256(q.authorization), q.authorization.body.bindings,
      KeyRecordOf(m), now);
    ReleaseStatement(Sha256(body), body)
  }

  /** The schema and the semantic rules of a release signature record. */
  predicate RecordContract(r: ReleaseRecord) {
    var b := r.statement.body;
    && r.statement.id == Sha256(b)
    && BindingsOk(b.bindings)
    && b.key.generation >= 1 && b.key.revocationGeneration >= 1
    && (b.key.rotation == RotationActive || b.key.rotation == RotationOverlap)
    && Inside(b.key.window, b.signedAt)
  }

  /** `verify_release_signature` */
  predicate SignatureValid(candidate: Blob, z: Authorization, r: ReleaseRecord, key: PublicKey) {
    && AuthorizationContract(z) && RecordContract(r)
    && r.statement.body.candidate == Sha256(candidate) && z.body.candidate == r.statement.body.candidate
    && r.statement.body.authorizationId == z.id && r.statement.body.authorizationDigest == Sha256(z)
    && Verifies(key, r.statement, r.signature) && Verifies(key, candidate, r.manifestSignature)
  }

  /** What the key store returned for the statement and for the candidate. */
  datatype Signed = Signed(statement: Signature<ReleaseStatement>, candidate: Signature<Blob>)

  predicate SignedOk(key: PublicKey, statement: ReleaseStatement, candidate: Blob, s: Signed) {
    Verifies(key, statement, s.statement) && Verifies(key, candidate, s.candidate)
  }

  /** Whatever passes the checks of signing passes the verification of release signatures, for the same
      candidate and authorization. */
  lemma SignedRecordIsValid(p: Policy, q: SigningRequest, m: KeyMetadata, now: int, s: Signed)
    requires PolicyOk(p) && EvidenceOk(p, q, now) && KeyUsable(p, m, q.keyId, now)
    requires SignedOk(m.publicKey.value, StatementFor(q, m, now), q.candidate, s)
    ensures var r := ReleaseRecord(StatementFor(q, m, now), s.statement, s.candidate);
            RecordContract(r) && SignatureValid(q.candidate, q.authorization, r, m.publicKey.value)
  {
  }

  // ---------------------------------------------------------------- the service

  datatype Slot = Slot(authorization: Digest<AuthorizationBody>, keyId: string)

  type Table = map<Slot, Row<Digest<ReleaseStatement>, ReleaseRecord>>

  /** One call of `sign`: the request, what the key store says of the key, and the clock. */
  datatype Call = Call(request: SigningRequest, metadata: KeyMetadata, now: int)

  function SlotOf(c: Call): Slot {
    Slot(c.request.authorization.id, c.request.keyId)
  }

  function StatementOfCall(c: Call): ReleaseStatement {
    StatementFor(c.request, c.metadata, c.now)
  }

  /** The evidence and the key pass every check made before the table is consulted. */
  predicate Usable(p: Policy, c: Call) {
    EvidenceOk(p, c.request, c.now) && KeyUsable(p, c.metadata, c.request.keyId, c.now)
  }

  /** The table after one call, and what the call returns. */
  function Signing(p: Policy, table: Table, c: Call, signed: Signed): (Table, Option<ReleaseRecord>) {
    var request := Sha256(StatementOfCall(c));
    var record := ReleaseRecord(StatementOfCall(c), signed.statement, signed.candidate);
    if !Usable(p, c) then (table, None)
    else
      match LookUp(table, SlotOf(c), request)
      case Conflict => (table, None)
      case Replayed(r) => (table, Some(r))
      case Absent =>
        if SignedOk(c.metadata.publicKey.value, StatementOfCall(c), c.request.candidate, signed)
        then (table[SlotOf(c) := Row(request, record)], Some(record)) else (table, None)
  }

  class ReleaseSigningService {
    const policy: Policy
    const store: SigningReplayStore<Slot, Digest<ReleaseStatement>, ReleaseRecord>

    constructor (policy: Policy, store: SigningReplayStore<Slot, Digest<ReleaseStatement>, ReleaseRecord>)
      requires PolicyOk(policy)
      ensures this.policy == policy && this.store == store
    {
      this.policy, this.store := policy, store;
    }

    /** `metadata` and `signed` are what the key store answers. */
    method Sign(q: SigningRequest, now: int, metadata: KeyMetadata, signed: Signed) returns (result: Option<ReleaseRecord>)
      requires PolicyOk(policy)
      modifies store
      ensures (store.table, result) == Signing(policy, old(store.table), Call(q, metadata, now), signed)
    {
      if !EvidenceOk(policy, q, now) || !KeyUsable(policy, metadata, q.keyId, now) {
        return None;
      }
      var statement := StatementFor(q, metadata, now);
      var slot := Slot(q.authorization.id, q.keyId);
      var looked := store.Lookup(slot, Sha256(statement));
      if looked.Conflict? {
        return None;
      }
      if looked.Replayed? {
        return Some(looked.record);
      }
      if !Verifies(metadata.publicKey.value, statement, signed.statement)
         || !Verifies(metadata.publicKey.value, q.candidate, signed.candidate) {
        return None;
      }
      var record := ReleaseRecord(statement, signed.statement, signed.candidate);
      SignedRecordIsValid(policy, q, metadata, now, signed);
      if !RecordContract(record) {
        return None;
      }
      var saved := store.Save(slot, Sha256(statement), record);
      return if saved then Some(record) else None;
    }
  }

  // ---------------------------------------------------------------- signers that run at once

  /** `keys` is the public key behind each key ID: a key store never changes it. */
  datatype Setting = Setting(policy: Policy, keys: map<string, PublicKey>)

  predicate CallOk(c: Setting, call: Call) {
    && Usable(c.policy, call)
    && call.request.keyId in c.keys && call.metadata.publicKey == Some(c.keys[call.request.keyId])
  }

  function RecordFor(c: Setting, call: Call, s: Signed): Option<ReleaseRecord> {
    if call.request.keyId in c.keys && SignedOk(c.keys[call.request.keyId], StatementOfCall(call), call.request.candidate, s)
    then Some(ReleaseRecord(StatementOfCall(call), s.statement, s.candidate)) else None
  }

  /** The record answers the call: its statement, and a valid signature for its candidate and authorization. */
  predicate Answers(c: Setting, call: Call, r: ReleaseRecord) {
    && r.statement == StatementOfCall(call) && call.request.keyId in c.keys
    && SignatureValid(call.request.candidate, call.request.authorization, r, c.keys[call.request.keyId])
  }

  function RulesOf(c: Setting): Rules<Call, Slot, Digest<ReleaseStatement>, ReleaseRecord, Signed> {
    Rules((call: Call) => SlotOf(call), (call: Call) => CallOk(c, call), (call: Call) => Sha256(StatementOfCall(call)),
          (call: Call, s: Signed) => RecordFor(c, call, s), (call: Call, r: ReleaseRecord) => Answers(c, call, r))
  }

  lemma MadeRecordAnswers(c: Setting, call: Call, s: Signed)
    requires PolicyOk(c.policy) && CallOk(c, call) && RecordFor(c, call, s).Some?
    ensures Answers(c, call, RecordFor(c, call, s).value)
  {
    SignedRecordIsValid(c.policy, call.request, call.metadata, call.now, s);
  }

  /** One statement digest means one candidate and one authorization, so a replayed record answers the
      later call too. */
  lemma ReplayAnswers(c: Setting, first: Call, later: Call, r: ReleaseRecord)
    requires CallOk(c, first) && CallOk(c, later) && SlotOf(first) == SlotOf(later)
    requires Sha256(StatementOfCall(first)) == Sha256(StatementOfCall(later)) && Answers(c, first, r)
    ensures Answers(c, later, r)
  {
    assert StatementOfCall(first).body == StatementOfCall(later).body;
    assert Sha256(first.request.authorization) == Sha256(later.request.authorization);
    assert Sha256(first.request.candidate) == Sha256(later.request.candidate);
  }

  lemma ServiceIsFaithful(c: Setting)
    requires PolicyOk(c.policy)
    ensures Faithful(RulesOf(c))
  {
    var rules := RulesOf(c);
    forall call, s | rules.admits(call) && rules.makes(call, s).Some?
      ensures rules.answers(call, rules.makes(call, s).value)
    {
      MadeRecordAnswers(c, call, s);
    }
    forall first, later, r | SameRequest(rules, first, later) && rules.answers(first, r) ensures rules.answers(later, r) {
      ReplayAnswers(c, first, later, r);
    }
  }

  /** However many signers run at once, every record that any of them returns verifies for the candidate
      and authorization it was returned for, and one authorization and key ever see one record. */
  lemma EveryReturnedRecordVerifies(c: Setting, es: seq<Event<Call, Signed>>, i: nat, j: nat)
    requires PolicyOk(c.policy) && i < |Run(RulesOf(c), es).returned| && j < |Run(RulesOf(c), es).returned|
    ensures var w := Run(RulesOf(c), es);
            && Answers(c, w.returned[i].call, w.returned[i].record)
            && (SlotOf(w.returned[i].call) == SlotOf(w.returned[j].call) ==> w.returned[i].record == w.returned[j].record)
  {
    ServiceIsFaithful(c);
    var rules := RulesOf(c);
    ReturnedAnswer(rules, es, i);
    if SlotOf(Run(rules, es).returned[i].call) == SlotOf(Run(rules, es).returned[j].call) {
      OneRecordPerSlot(rules, es, i, j);
    }
  }
}
