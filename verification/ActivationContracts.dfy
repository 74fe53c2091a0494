/** What the operator API promises about activation status and receipts. */
module ActivationContracts {
  import opened Prelude
  import opened Identifiers

  datatype StatusMode = UNINITIALIZED_MODE | PRODUCTION | RECOVERY_MODE

  datatype StatusState = UNINITIALIZED | ACTIVE | RECOVERY | REJECTED

  datatype Status = Status(
    activeDigest: Option<string>, activeSequence: int, sequenceFloor: int, mode: StatusMode, state: StatusState,
    ready: bool, reasonCode: string)

  datatype Identity = Identity(digest: string, sequence: int)

  datatype ReceiptResult = SUCCESS | REJECTION | RECOVERED | FAILURE

  datatype Receipt = Receipt(desired: Identity, activated: Option<Identity>, toState: string, result: ReceiptResult)

  /** `validate_coherent_status` with the field constraints of the model. */
  predicate StatusOk(s: Status) {
    && 0 <= s.activeSequence <= s.sequenceFloor
    && match s.activeDigest
       case None =>
         && s.activeSequence == 0 && s.mode == UNINITIALIZED_MODE && s.state == UNINITIALIZED
         && !s.ready && s.reasonCode == "NO_ACTIVE_CORPUS"
       case Some(d) =>
         && WellFormedDigest(d) && s.activeSequence >= 1 && s.mode != UNINITIALIZED_MODE
         && if s.ready
            then s.state == (if s.mode == RECOVERY_MODE then RECOVERY else ACTIVE)
                 && s.reasonCode == (if s.mode == RECOVERY_MODE then "RECOVERY_ACTIVE" else "READY")
            else s.state == REJECTED
  }

  predicate IdentityOk(i: Identity) {
    WellFormedDigest(i.digest) && i.sequence >= 1
  }

  /** `validate_coherent_result` */
  predicate ReceiptOk(r: Receipt) {
    && IdentityOk(r.desired)
    && (r.activated.Some? ==> IdentityOk(r.activated.value))
    && match r.result
       case SUCCESS => r.activated == Some(r.desired) && r.toState == "ACTIVE"
       case RECOVERED => r.activated == Some(r.desired) && r.toState == "RECOVERY"
       case _ => r.toState == "REJECTED"
  }

  /** The status names exactly this release. */
  predicate IsTarget(s: Status, target: Identity) {
    s.activeDigest == Some(target.digest) && s.activeSequence == target.sequence
  }

  /** The status shows the release served in production. */
  predicate ShowsServed(s: Status, target: Identity) {
    && IsTarget(s, target)
    && s.mode == PRODUCTION && s.state == ACTIVE && s.ready && s.reasonCode == "READY"
  }

  /** A coherent status shows the release served exactly when it is ready, in production and names it. */
  lemma ShowsServedIff(s: Status, target: Identity)
    requires StatusOk(s)
    ensures ShowsServed(s, target) <==> IsTarget(s, target) && s.ready && s.mode == PRODUCTION
  {
  }
}
