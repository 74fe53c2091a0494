/**
 The read side of activation: what a RAG process may serve.

 The durable store is what a node keeps on disk: the pointer `current.json`, the file
 `receipt-counter.json`, one `state.json` and one staged package per release directory.
 `Resolve` is the fail-closed resolver; it never changes the store.
 */
module ActiveRelease {
  import opened Safety
  import opened Identifiers
  import opened Prelude

  datatype ReleaseStage =
    | STAGED | VERIFIED | INDEXED | CANARY_TESTED | READY | ACTIVE | REJECTED | RECOVERY

  datatype Mode = Production | Recovery

  datatype ServingPolicy = ServingPolicy(
    authorizationId: string, nonce: string, blocked: seq<SafetyClass>)

  datatype Pointer = Pointer(
    activeDigest: string,
    activeSequence: int,
    sequenceFloor: int,
    mode: Mode,
    deviceCounter: int,
    usedAuthorizations: seq<string>,
    policy: Option<ServingPolicy>)

  /** `hasReason` is the extra reason_code field a rejected release carries. */
  datatype ReleaseState = ReleaseState(
    digest: string, sequence: int, stage: ReleaseStage, history: seq<ReleaseStage>, hasReason: bool)

  /** A staged package: the digest of its manifest, and whether package validation accepts it
      (signature, hashes, event and version). */
  datatype Package = Package(manifestDigest: string, valid: bool)

  datatype Store = Store(
    pointer: Option<Pointer>,
    counter: Option<int>,
    states: map<string, ReleaseState>,
    packages: map<string, Package>)

  const EMPTY_STORE := Store(None, None, map[], map[])

  // ---------------------------------------------------------------- identifiers

  predicate CanonicalUuid(s: string) {
    |s| == 36 && forall i :: 0 <= i < 36 ==>
      if i == 8 || i == 13 || i == 18 || i == 23 then s[i] == '-' else LowerHex(s[i])
  }

  predicate NonceChar(c: char) {
    'A' <= c <= 'Z' || 'a' <= c <= 'z' || '0' <= c <= '9' || c == '_' || c == '-'
  }

  predicate WellFormedNonce(s: string) {
    22 <= |s| <= 128 && forall i :: 0 <= i < |s| ==> NonceChar(s[i])
  }

  function AuthorizationMarker(id: string): string { "authorization:" + id }

  function NonceMarker(nonce: string): string { "nonce:" + nonce }

  // ---------------------------------------------------------------- checks

  ghost predicate PolicyOk(policy: ServingPolicy, pointer: Pointer) {
    && pointer.mode == Recovery
    && CanonicalUuid(policy.authorizationId)
    && WellFormedNonce(policy.nonce)
    && AuthorizationMarker(policy.authorizationId) in pointer.usedAuthorizations
    && NonceMarker(policy.nonce) in pointer.usedAuthorizations
    && Distinct(policy.blocked)
  }

  ghost predicate PointerOk(p: Pointer) {
    && WellFormedDigest(p.activeDigest)
    && p.activeSequence >= 1
    && p.sequenceFloor >= 1
    && p.sequenceFloor >= p.activeSequence
    && (p.mode == Production ==> p.activeSequence == p.sequenceFloor)
    && p.deviceCounter >= 1
    && (forall m :: m in p.usedAuthorizations ==> m != "")
    && Distinct(p.usedAuthorizations)
    && (p.mode == Recovery ==> p.usedAuthorizations != [])
    && (p.policy.Some? ==> PolicyOk(p.policy.value, p))
  }

  function ExpectedStage(p: Pointer): ReleaseStage {
    if p.mode == Production then ACTIVE else RECOVERY
  }

  predicate StateOk(state: ReleaseState, p: Pointer) {
    && !state.hasReason
    && state.digest == p.activeDigest
    && state.sequence == p.activeSequence
    && state.stage == ExpectedStage(p)
    && |state.history| >= 2
    && state.history[|state.history| - 2..] == [READY, ExpectedStage(p)]
  }

  predicate PackageOk(package: Package, p: Pointer) {
    package.manifestDigest == p.activeDigest && package.valid
  }

  datatype Selection = Selection(
    digest: string, sequence: int, floor: int, mode: Mode, stage: ReleaseStage,
    deviceCounter: int, blocked: seq<SafetyClass>, recoveryAuthorization: Option<string>)

  /** The resolver: a selection only if pointer, state and package all agree. */
  ghost function Resolve(s: Store): Option<Selection> {
    if s.pointer.None? then None else
    var p := s.pointer.value;
    if !PointerOk(p) then None
    else if p.activeDigest !in s.states then None
    else if !StateOk(s.states[p.activeDigest], p) then None
    else if p.activeDigest !in s.packages then None
    else if !PackageOk(s.packages[p.activeDigest], p) then None
    else
      Some(Selection(
        p.activeDigest, p.activeSequence, p.sequenceFloor, p.mode, ExpectedStage(p), p.deviceCounter,
        if p.policy.Some? then p.policy.value.blocked else [],
        if p.policy.Some? then Some(p.policy.value.authorizationId) else None))
  }

  /** Nothing has been activated yet, or what is activated can be served. */
  ghost predicate Servable(s: Store) {
    s.pointer.Some? ==> Resolve(s).Some?
  }
}
