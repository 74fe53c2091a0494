/**
 The write side of activation: `CorpusActivationManager`.

 Every durable effect is one atomic replacement (`Write`). An attempt is a list of such writes, cut
 short by an exception whose place is chosen by the environment `Faults`, and then possibly by a
 loss of power after any prefix.
 */
module Activation {
  import opened Safety
  import opened Identifiers
  import opened Prelude
  import opened ActiveRelease

  // ---------------------------------------------------------------- durable writes

  datatype Write =
    | StagePackage(digest: string, package: Package)
    | WriteState(state: ReleaseState)
    | WriteCounter(value: int)
    | WritePointer(pointer: Pointer)

  /** One atomic replacement. A package directory that exists is kept. */
  function Apply(s: Store, w: Write): Store {
    match w
    case StagePackage(d, p) => if d in s.packages then s else s.(packages := s.packages[d := p])
    case WriteState(st) => s.(states := s.states[st.digest := st])
    case WriteCounter(v) => s.(counter := Some(v))
    case WritePointer(p) => s.(pointer := Some(p))
  }

  function ApplyAll(s: Store, ws: seq<Write>): Store
    decreases |ws|
  {
    if ws == [] then s else Apply(ApplyAll(s, ws[..|ws| - 1]), ws[|ws| - 1])
  }

  // ---------------------------------------------------------------- requests

  datatype Candidate = Candidate(digest: string, sequence: int, package: Package)

  datatype Authorization =
    | PreAuthorized(id: string, targetDigest: string, floor: int, currentDigest: string, site: string)
    | Exceptional(id: string, nonce: string, event: string, site: string, targetDigest: string,
                  targetSequence: int, currentDigest: string, floor: int, blocked: seq<SafetyClass>)

  datatype Request = Activate(candidate: Candidate) | Recover(candidate: Candidate, authorization: Authorization)

  /** What the constructors of ReleaseCandidate and the authorization records have already checked,
      and the agreement of a candidate's digest with its manifest. */
  ghost predicate Admissible(r: Request) {
    && WellFormedDigest(r.candidate.digest)
    && r.candidate.sequence >= 1
    && r.candidate.package.manifestDigest == r.candidate.digest
    && (r.Recover? ==>
          match r.authorization
          case PreAuthorized(id, _, floor, _, _) => id != "" && floor >= 1
          case Exceptional(id, nonce, _, _, _, _, _, floor, blocked) =>
            CanonicalUuid(id) && WellFormedNonce(nonce) && floor >= 1 && Distinct(blocked))
  }

  function Floor(s: Store): int {
    if s.pointer.Some? then s.pointer.value.sequenceFloor else 0
  }

  function ActiveDigest(s: Store): Option<string> {
    if s.pointer.Some? then Some(s.pointer.value.activeDigest) else None
  }

  function Used(s: Store): seq<string> {
    if s.pointer.Some? then s.pointer.value.usedAuthorizations else []
  }

  function PointerCounter(s: Store): int {
    if s.pointer.Some? then s.pointer.value.deviceCounter else 0
  }

  /** The larger of the two counters on disk. */
  function CounterMark(s: Store): int {
    Max(s.counter.GetOr(0), PointerCounter(s))
  }

  /** The counter the next receipt gets. */
  function NextCounter(s: Store): int {
    CounterMark(s) + 1
  }

  function Markers(r: Request): seq<string> {
    match r
    case Activate(_) => []
    case Recover(_, PreAuthorized(id, _, _, _, _)) => [id]
    case Recover(_, Exceptional(id, nonce, _, _, _, _, _, _, _)) => [AuthorizationMarker(id), NonceMarker(nonce)]
  }

  datatype Gate = Proceed | AlreadyActive | Rollback | NotAuthorized

  /** The decision taken before anything is staged. */
  function Decide(s: Store, r: Request, event: string, site: string): Gate {
    match r
    case Activate(c) =>
      if c.sequence < Floor(s) || (c.sequence == Floor(s) && Some(c.digest) != ActiveDigest(s)) then Rollback
      else if c.sequence == Floor(s) then AlreadyActive
      else Proceed
    case Recover(c, PreAuthorized(id, target, floor, current, asite)) =>
      if id !in Used(s) && target == c.digest && floor == Floor(s) && Some(current) == ActiveDigest(s)
         && asite == site
      then Proceed else NotAuthorized
    case Recover(c, Exceptional(id, nonce, aevent, asite, target, sequence, current, floor, _)) =>
      if c.digest == target && c.sequence == sequence && Some(current) == ActiveDigest(s) && floor == Floor(s)
         && aevent == event && asite == site
         && AuthorizationMarker(id) !in Used(s) && NonceMarker(nonce) !in Used(s)
      then Proceed else NotAuthorized
  }

  function FinalMode(r: Request): Mode {
    if r.Activate? then Production else Recovery
  }

  function FinalStage(r: Request): ReleaseStage {
    if r.Activate? then ACTIVE else RECOVERY
  }

  function NextPointer(s: Store, r: Request): Pointer {
    Pointer(
      r.candidate.digest, r.candidate.sequence, Max(Floor(s), r.candidate.sequence), FinalMode(r),
      NextCounter(s), Used(s) + Markers(r),
      match r
      case Recover(_, Exceptional(id, nonce, _, _, _, _, _, _, blocked)) => Some(ServingPolicy(id, nonce, blocked))
      case _ => None)
  }

  // ---------------------------------------------------------------- one attempt

  /** Where the `try` block is interrupted. Its ten steps are: stage the package, record STAGED,
      VERIFIED, INDEXED, CANARY_TESTED, READY, write the counter, sign the receipt, record the final
      state, write the pointer. `steps` of them take effect; `raised` says that an exception follows.
      `steps == 10 && raised` is an exception after the pointer was renamed into place.
      `rejectLands` is whether the handler's REJECTED record takes effect, `counterLands` whether a
      failure or rejection receipt's counter does, and `reason` whether the error text is non-empty. */
  datatype Faults = Faults(steps: nat, raised: bool, rejectLands: bool, reason: bool,
                           counterLands: bool, receiptIssued: bool)

  const STEPS := 10

  predicate FaultsOk(f: Faults) {
    && f.steps <= STEPS
    && (f.steps < STEPS ==> f.raised)
    && (f.receiptIssued ==> f.counterLands)
  }

  const PREPARATION: seq<ReleaseStage> := [STAGED, VERIFIED, INDEXED, CANARY_TESTED, READY]

  function History(s: Store, digest: string): seq<ReleaseStage> {
    if digest in s.states then s.states[digest].history else []
  }

  /** `_record_state`: append the stage to whatever history is on disk. */
  function Record(s: Store, c: Candidate, stage: ReleaseStage, reason: bool): Write {
    WriteState(ReleaseState(c.digest, c.sequence, stage, History(s, c.digest) + [stage], reason))
  }

  function StagedPackage(s: Store, c: Candidate): Package {
    if c.digest in s.packages then s.packages[c.digest] else c.package
  }

  /** Verification of the staged package stops the attempt after two steps. */
  function Reached(s: Store, c: Candidate, f: Faults): nat {
    if StagedPackage(s, c).valid then f.steps else Min(f.steps, 2)
  }

  /** The k-th durable write of the try block, as a function of the store at the start. */
  function Planned(s: Store, r: Request, k: nat): Write
    requires k < 9
  {
    var c := r.candidate;
    var h := History(s, c.digest);
    if k == 0 then StagePackage(c.digest, c.package)
    else if k <= 5 then
      WriteState(ReleaseState(c.digest, c.sequence, PREPARATION[k - 1], h + PREPARATION[..k], false))
    else if k == 6 then WriteCounter(NextCounter(s))
    else if k == 7 then
      WriteState(ReleaseState(c.digest, c.sequence, FinalStage(r), h + PREPARATION + [FinalStage(r)], false))
    else WritePointer(NextPointer(s, r))
  }

  /** Durable writes among the first `steps` steps: all but the signing step. */
  function WritesIn(steps: nat): nat {
    if steps <= 7 then steps else steps - 1
  }

  function TryWrites(s: Store, r: Request, n: nat): seq<Write>
    requires n <= 9
  {
    seq(n, k requires 0 <= k < 9 => Planned(s, r, k))
  }

  /** The history on disk after the first k writes of the try block. */
  function HistoryAfter(s: Store, r: Request, k: nat): seq<ReleaseStage>
    requires k <= 9
  {
    var h := History(s, r.candidate.digest);
    if k < 2 then h
    else if k < 8 then h + PREPARATION[..Min(k - 1, 5)]
    else h + PREPARATION + [FinalStage(r)]
  }

  /** The store after the first k writes of the try block, in closed form. */
  function After(s: Store, r: Request, k: nat): Store
    requires k <= 9
  {
    var c := r.candidate;
    var d := c.digest;
    Store(if k == 9 then Some(NextPointer(s, r)) else s.pointer,
          if k >= 7 then Some(NextCounter(s)) else s.counter,
          if k < 2 then s.states
          else s.states[d := ReleaseState(d, c.sequence,
                                          if k < 8 then PREPARATION[Min(k - 1, 5) - 1] else FinalStage(r),
                                          HistoryAfter(s, r, k), false)],
          if k >= 1 then s.packages[d := StagedPackage(s, c)] else s.packages)
  }

  datatype Verdict = Success | Recovered | RejectedResult | FailedResult

  datatype Reason = ACTIVATED | RECOVERY_ACTIVATED | ALREADY_ACTIVE | SEQUENCE_ROLLBACK
                  | RECOVERY_NOT_AUTHORIZED | ACTIVATION_FAILED

  datatype Receipt = Receipt(
    desiredDigest: string, desiredSequence: int, activatedDigest: Option<string>, activatedSequence: int,
    verdict: Verdict, reason: Reason, counter: int)

  function ActiveSequence(s: Store): int {
    if s.pointer.Some? then s.pointer.value.activeSequence else 0
  }

  /** A receipt about the release that was live before: rejections, failures, repeats. */
  function StandingReceipt(s: Store, r: Request, v: Verdict, reason: Reason, counter: int): Receipt {
    Receipt(r.candidate.digest, r.candidate.sequence, ActiveDigest(s),
            if ActiveDigest(s) == Some(r.candidate.digest) then r.candidate.sequence else ActiveSequence(s),
            v, reason, counter)
  }

  function SuccessReceipt(s: Store, r: Request): Receipt {
    Receipt(r.candidate.digest, r.candidate.sequence, Some(r.candidate.digest), r.candidate.sequence,
            if r.Activate? then Success else Recovered,
            if r.Activate? then ACTIVATED else RECOVERY_ACTIVATED, NextCounter(s))
  }

  /** The durable writes of one call and the receipt it hands out, if any. */
  datatype Attempt = Attempt(writes: seq<Write>, receipt: Option<Receipt>)

  function CounterWrites(s: Store, f: Faults): seq<Write> {
    if f.counterLands then [WriteCounter(NextCounter(s))] else []
  }

  /** The exception handler's writes, from the store the try block leaves: REJECTED, and unless the
      candidate turns out to be live, the counter of a failure receipt. */
  function ExceptionWrites(t: Store, c: Candidate, f: Faults): seq<Write> {
    (if f.rejectLands then [Record(t, c, REJECTED, f.reason)] else [])
    + if ActiveDigest(t) == Some(c.digest) then [] else CounterWrites(t, f)
  }

  /** What follows the try block. `return success_receipt` hands something out only once the receipt was
      signed, which is the eighth step. */
  function Tail(s: Store, r: Request, f: Faults): Attempt
    requires FaultsOk(f)
  {
    var reached := Reached(s, r.candidate, f);
    var t := After(s, r, WritesIn(reached));
    var success := if reached >= 8 then Some(SuccessReceipt(s, r)) else None;
    if reached == STEPS && !f.raised then Attempt([], success)
    else if ActiveDigest(t) == Some(r.candidate.digest) then Attempt(ExceptionWrites(t, r.candidate, f), success)
    else Attempt(ExceptionWrites(t, r.candidate, f),
                 if f.receiptIssued
                 then Some(StandingReceipt(s, r, FailedResult, ACTIVATION_FAILED, NextCounter(t)))
                 else None)
  }

  function Prepare(s: Store, r: Request, f: Faults): Attempt
    requires FaultsOk(f)
  {
    var tail := Tail(s, r, f);
    Attempt(TryWrites(s, r, WritesIn(Reached(s, r.candidate, f))) + tail.writes, tail.receipt)
  }

  function Standing(s: Store, r: Request, f: Faults, v: Verdict, reason: Reason): Attempt {
    Attempt(CounterWrites(s, f),
            if f.receiptIssued then Some(StandingReceipt(s, r, v, reason, NextCounter(s))) else None)
  }

  function Perform(s: Store, r: Request, event: string, site: string, f: Faults): Attempt
    requires FaultsOk(f)
  {
    match Decide(s, r, event, site)
    case Proceed => Prepare(s, r, f)
    case AlreadyActive => Standing(s, r, f, Success, ALREADY_ACTIVE)
    case Rollback => Standing(s, r, f, RejectedResult, SEQUENCE_ROLLBACK)
    case NotAuthorized => Standing(s, r, f, RejectedResult, RECOVERY_NOT_AUTHORIZED)
  }
}
