/**
 What a repeated signing call gets. The request digest covers the signing time and the key record, so a
 repetition is replayed only for the same reading of the clock and the same key record.
 */
module SigningRetries {
  import opened Prelude
  import opened Crypto
  import opened Promotion
  import opened EvaluationAttestation
  import opened SigningReplay
  import opened ReleaseSigning

  /** The two calls carry the same authorization, key record and reading of the clock. */
  predicate SameInputs(first: Call, later: Call) {
    && first.request.authorization == later.request.authorization
    && KeyRecordOf(first.metadata) == KeyRecordOf(later.metadata)
    && first.now == later.now
  }

  lemma SameStatementIff(first: Call, later: Call)
    ensures Sha256(StatementOfCall(first)) == Sha256(StatementOfCall(later)) <==> SameInputs(first, later)
  {
    var a, b := StatementOfCall(first).body, StatementOfCall(later).body;
    assert a == b ==> first.request.authorization == later.request.authorization;
  }

  /** Once a slot holds the record of one call, a later call on it is replayed exactly with the same
      inputs, and otherwise conflicts: it is never signed again. */
  lemma RetryIsReplayedIff(table: Table, first: Call, later: Call, r: ReleaseRecord)
    requires SlotOf(later) == SlotOf(first) && SlotOf(first) in table
    requires table[SlotOf(first)] == Row(Sha256(StatementOfCall(first)), r)
    ensures LookUp(table, SlotOf(later), Sha256(StatementOfCall(later))) ==
            if SameInputs(first, later) then Replayed(r) else Conflict
  {
    SameStatementIff(first, later);
  }

  // ---------------------------------------------------------------- one call after another

  /** After a call has returned a record, a later call on its slot that passes the checks made before the
      table is consulted gets that record if and only if its inputs are the same; any other is refused. */
  lemma SecondCallGetsRecordIff(p: Policy, table: Table, first: Call, later: Call, s: Signed, t: Signed)
    requires SlotOf(later) == SlotOf(first) && Signing(p, table, first, s).1.Some?
    ensures var (kept, record) := Signing(p, table, first, s);
            Signing(p, kept, later, t) == (kept, if Usable(p, later) && SameInputs(first, later) then record else None)
  {
    RetryIsReplayedIff(Signing(p, table, first, s).0, first, later, Signing(p, table, first, s).1.value);
  }

  /** A signed request repeated at another reading of the clock is refused. */
  lemma SameRequestLaterIsRefused(p: Policy, table: Table, q: SigningRequest, m: KeyMetadata, n: KeyMetadata,
                                  now: int, later: int, s: Signed, t: Signed)
    requires now != later && Signing(p, table, Call(q, m, now), s).1.Some?
    ensures Signing(p, Signing(p, table, Call(q, m, now), s).0, Call(q, n, later), t).1 == None
  {
    SecondCallGetsRecordIff(p, table, Call(q, m, now), Call(q, n, later), s, t);
  }

  // ---------------------------------------------------------------- signers that run at once

  lemma SameStatementOfAnswered(c: Setting, a: Call, b: Call, r: ReleaseRecord)
    requires Answers(c, a, r) && Answers(c, b, r)
    ensures StatementOfCall(a) == StatementOfCall(b)
  {
  }

  lemma RowOfReturned(c: Setting, es: seq<Event<Call, Signed>>, i: nat)
    requires PolicyOk(c.policy) && i < |Run(RulesOf(c), es).returned|
    ensures var w := Run(RulesOf(c), es);
            var first := w.returned[i].call;
            && SlotOf(first) in w.table
            && w.table[SlotOf(first)] == Row(Sha256(StatementOfCall(first)), w.returned[i].record)
  {
    ServiceIsFaithful(c);
    var maker := ReturnedRow(RulesOf(c), es, i);
    var r := Run(RulesOf(c), es).returned[i];
    SameStatementOfAnswered(c, maker, r.call, r.record);
  }

  /** In any run, once a record has been returned for a slot, an admitted call that begins on the slot is
      given that record if and only if its inputs are those of the call it was returned for. Otherwise
      nothing happens. */
  lemma LaterCallIsReplayedIff(c: Setting, es: seq<Event<Call, Signed>>, i: nat, signer: nat, later: Call)
    requires PolicyOk(c.policy) && CallOk(c, later)
    requires i < |Run(RulesOf(c), es).returned| && signer !in Run(RulesOf(c), es).signers
    requires SlotOf(later) == SlotOf(Run(RulesOf(c), es).returned[i].call)
    ensures var w := Run(RulesOf(c), es);
            Run(RulesOf(c), es + [Begin(signer, later)]) ==
            if SameInputs(w.returned[i].call, later) then Give(w, later, w.returned[i].record, signer) else w
  {
    var w := Run(RulesOf(c), es);
    RowOfReturned(c, es, i);
    RetryIsReplayedIff(w.table, w.returned[i].call, later, w.returned[i].record);
    RunSnoc(RulesOf(c), es, Begin(signer, later));
  }

  /** All calls that ever get a record for one authorization and key have the same inputs. */
  lemma RecordedCallsHaveSameInputs(c: Setting, es: seq<Event<Call, Signed>>, i: nat, j: nat)
    requires PolicyOk(c.policy) && i < |Run(RulesOf(c), es).returned| && j < |Run(RulesOf(c), es).returned|
    requires SlotOf(Run(RulesOf(c), es).returned[i].call) == SlotOf(Run(RulesOf(c), es).returned[j].call)
    ensures SameInputs(Run(RulesOf(c), es).returned[i].call, Run(RulesOf(c), es).returned[j].call)
  {
    RowOfReturned(c, es, i);
    RowOfReturned(c, es, j);
    SameStatementIff(Run(RulesOf(c), es).returned[i].call, Run(RulesOf(c), es).returned[j].call);
  }

  // ---------------------------------------------------------------- one second later

  const CANDIDATE: Blob := [1]
  const ATTESTATION_KEY := PublicKey(1)
  const RELEASE_KEY := PublicKey(2)

  const REPORT_BODY := ReportBody(
    GovernedV1, map f | f in FIELDS :: Some(Sha256(CANDIDATE)), Layers(true, Some(true), true, true, true, true), [], PASS)
  const REPORT := Report(Sha256(REPORT_BODY), REPORT_BODY)

  const OWNER := Approval("ada", EvaluationOwner, "evaluation", "first", true, 0)
  const APPROVER := Approval("bob", ReleaseApprover, "release", "second", true, 0)

  const ATTESTATION_BODY := AttestationBody(
    Subject(REPORT.id, Sha256(REPORT), Sha256(CANDIDATE), GovernedV1, PASS), "eve",
    [Prepared(OWNER, Sha256(OWNER)), Prepared(APPROVER, Sha256(APPROVER))], Window(0, 1000),
    Snapshot(1, 0, None, None, None, None), "sam", 0, PublicKeyId(ATTESTATION_KEY), Window(0, 1000))
  const STATEMENT := Statement(Sha256(ATTESTATION_BODY), ATTESTATION_BODY)
  const ATTESTATION := Attestation(STATEMENT, SignedBy(ATTESTATION_KEY, STATEMENT))

  const POLICY := Policy({"key"}, map[PublicKeyId(ATTESTATION_KEY) := ATTESTATION_KEY], 1, 1, 3600, 1024, {}, {})
  const REQUEST := SigningRequest(CANDIDATE, AuthorizationOf(CANDIDATE, REPORT, ATTESTATION, 0), REPORT, ATTESTATION, "key")
  const METADATA := KeyMetadata("key", true, true, 1, RotationActive, 1, Window(0, 1000), Some(RELEASE_KEY))

  function CallAt(now: int): Call {
    Call(REQUEST, METADATA, now)
  }

  /** What an honest key store answers. */
  function SignedAt(now: int): Signed {
    Signed(SignedBy(RELEASE_KEY, StatementOfCall(CallAt(now))), SignedBy(RELEASE_KEY, CANDIDATE))
  }

  lemma ReportIsOk()
    ensures ReportOk(REPORT) && SubjectOf(REPORT) == Some(ATTESTATION_BODY.subject)
  {
    assert FIELDS[0] == ReleaseDigest;
  }

  lemma AttestationMeetsContract()
    ensures AttestationContract(ATTESTATION)
  {
    var ps := ATTESTATION_BODY.approvals;
    assert ps[0].body.role == EvaluationOwner && ps[1].body.role == ReleaseApprover;
  }

  lemma AttestationIsValid(now: int)
    requires 0 <= now < 1000
    ensures AttestationValid(ATTESTATION, REPORT, ATTESTATION_KEY, Trust(now, {}, {}))
  {
    ReportIsOk();
    AttestationMeetsContract();
  }

  lemma AuthorizationIsOk()
    ensures AuthorizationContract(REQUEST.authorization) && Names(REQUEST.authorization.body, REPORT, ATTESTATION)
  {
  }

  lemma CallIsUsable(now: int)
    requires 0 <= now < 1000
    ensures PolicyOk(POLICY) && Usable(POLICY, CallAt(now))
  {
    AttestationIsValid(now);
    AuthorizationIsOk();
  }

  /** The same request and the same key, ten and eleven seconds after the authorization: the first call
      returns a record, the second passes every check and is refused as a conflict. */
  lemma RetryOneSecondLaterConflicts()
    ensures PolicyOk(POLICY) && Usable(POLICY, CallAt(10)) && Usable(POLICY, CallAt(11))
    ensures var (kept, record) := Signing(POLICY, map[], CallAt(10), SignedAt(10));
            && record.Some?
            && LookUp(kept, SlotOf(CallAt(11)), Sha256(StatementOfCall(CallAt(11)))) == Conflict
            && Signing(POLICY, kept, CallAt(11), SignedAt(11)) == (kept, None)
  {
    CallIsUsable(10);
    CallIsUsable(11);
    var (kept, record) := Signing(POLICY, map[], CallAt(10), SignedAt(10));
    RetryIsReplayedIff(kept, CallAt(10), CallAt(11), record.value);
    SecondCallGetsRecordIff(POLICY, map[], CallAt(10), CallAt(11), SignedAt(10), SignedAt(11));
  }
}
