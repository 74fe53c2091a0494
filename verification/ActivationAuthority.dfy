/**
 Who may move the pointer: every commit of a run carries the release its request names, and a recovery only
 ever lands where its authorization says, from where its authorization says.
 */
module ActivationAuthority {
  import opened Prelude
  import opened ActiveRelease
  import opened Activation
  import opened ActivationSafety
  import opened ActivationRuns

  // ---------------------------------------------------------------- what a request must name

  /** The pointer on disk is at this digest and floor. */
  predicate At(s: Store, digest: string, floor: int) {
    s.pointer.Some? && s.pointer.value.activeDigest == digest && s.pointer.value.sequenceFloor == floor
  }

  predicate Unused(s: Store, marker: string) {
    s.pointer.Some? ==> marker !in s.pointer.value.usedAuthorizations
  }

  /** An activation exceeds the floor. A recovery's authorization names the candidate, the release and floor
      it leaves and this site, and is unused; an exceptional one also names sequence and event. */
  predicate Entitled(node: Node, s: Store, r: Request) {
    var c := r.candidate;
    match r
    case Activate(_) => if s.pointer.Some? then c.sequence > s.pointer.value.sequenceFloor else c.sequence > 0
    case Recover(_, PreAuthorized(id, target, floor, current, site)) =>
      target == c.digest && At(s, current, floor) && site == node.site && Unused(s, id)
    case Recover(_, Exceptional(id, nonce, event, site, target, sequence, current, floor, _)) =>
      && target == c.digest && sequence == c.sequence && At(s, current, floor)
      && event == node.event && site == node.site
      && Unused(s, "authorization:" + id) && Unused(s, "nonce:" + nonce)
  }

  /** One more than the larger of the two counters on disk; what is not there counts as 0. */
  predicate CountsOn(s: Store, n: int) {
    var own := if s.counter.Some? then s.counter.value else 0;
    var live := if s.pointer.Some? then s.pointer.value.deviceCounter else 0;
    n > own && n > live && (n == own + 1 || n == live + 1)
  }

  /** The pointer is the one the request asks for, with the next floor and a counter above both on disk. */
  predicate Asked(s: Store, r: Request, p: Pointer) {
    && p.activeDigest == r.candidate.digest && p.activeSequence == r.candidate.sequence
    && p.sequenceFloor >= p.activeSequence
    && (s.pointer.Some? ==> p.sequenceFloor >= s.pointer.value.sequenceFloor)
    && (p.sequenceFloor == p.activeSequence
        || (p.sequenceFloor == if s.pointer.Some? then s.pointer.value.sequenceFloor else 0))
    && CountsOn(s, p.deviceCounter)
    && p.usedAuthorizations == (if s.pointer.Some? then s.pointer.value.usedAuthorizations else []) + Consumed(r)
    && p.mode == (if r.Activate? then Production else Recovery)
    && p.policy == ServingRules(r)
  }

  /** The markers a request uses up. */
  function Consumed(r: Request): seq<string> {
    match r
    case Activate(_) => []
    case Recover(_, PreAuthorized(id, _, _, _, _)) => [id]
    case Recover(_, Exceptional(id, nonce, _, _, _, _, _, _, _)) => ["authorization:" + id, "nonce:" + nonce]
  }

  /** Only an exceptional authorization restricts what is served. */
  function ServingRules(r: Request): Option<ServingPolicy> {
    match r
    case Recover(_, Exceptional(id, nonce, _, _, _, _, _, _, blocked)) => Some(ServingPolicy(id, nonce, blocked))
    case _ => None
  }

  lemma EntitledIsDecided(node: Node, s: Store, r: Request)
    ensures Entitled(node, s, r) <==> Decide(s, r, node.event, node.site) == Proceed
  {
  }

  lemma NextIsAsked(s: Store, r: Request)
    ensures Asked(s, r, NextPointer(s, r))
  {
  }

  // ---------------------------------------------------------------- over runs

  /** A pointer moves only onto what its request asks for, and only for an entitled request. */
  lemma MovesAreEntitled(node: Node, s: Store, e: Event)
    requires FaultsOk(e.faults) && Step(node, s, e).pointer != s.pointer
    ensures Entitled(node, s, e.request)
    ensures Step(node, s, e).pointer.Some? && Asked(s, e.request, Step(node, s, e).pointer.value)
  {
    StepEffect(node, s, e);
    EntitledIsDecided(node, s, e.request);
    NextIsAsked(s, e.request);
  }

  lemma {:induction false} TraceSteps(node: Node, s: Store, es: seq<Event>, k: nat)
    requires AllFaultsOk(es) && k < |es|
    ensures Trace(node, s, es)[k + 1] == Step(node, Trace(node, s, es)[k], es[k])
    decreases |es|
  {
    if k > 0 {
      TraceSteps(node, Step(node, s, es[0]), es[1..], k - 1);
    }
  }

  /** Every commit of every run is of an entitled request and is what that request asks for. */
  lemma EveryCommitIsEntitled(node: Node, s: Store, es: seq<Event>, k: nat)
    requires AllFaultsOk(es) && k < |es|
    requires Trace(node, s, es)[k + 1].pointer != Trace(node, s, es)[k].pointer
    ensures var before, after := Trace(node, s, es)[k], Trace(node, s, es)[k + 1];
            after.pointer.Some? && Entitled(node, before, es[k].request) && Asked(before, es[k].request, after.pointer.value)
  {
    TraceSteps(node, s, es, k);
    MovesAreEntitled(node, Trace(node, s, es)[k], es[k]);
  }

  /** Event `k` of the run put the pointer there. */
  ghost predicate CommittedAt(node: Node, s: Store, es: seq<Event>, k: nat, p: Pointer)
    requires AllFaultsOk(es)
  {
    && k < |es|
    && Trace(node, s, es)[k + 1].pointer == Some(p)
    && Entitled(node, Trace(node, s, es)[k], es[k].request) && Asked(Trace(node, s, es)[k], es[k].request, p)
  }

  lemma {:induction false} LastCommit(node: Node, s: Store, es: seq<Event>, n: nat) returns (k: nat)
    requires AllFaultsOk(es) && n <= |es| && s.pointer.None? && Trace(node, s, es)[n].pointer.Some?
    ensures CommittedAt(node, s, es, k, Trace(node, s, es)[n].pointer.value)
  {
    if Trace(node, s, es)[n].pointer == Trace(node, s, es)[n - 1].pointer {
      k := LastCommit(node, s, es, n - 1);
    } else {
      k := n - 1;
      EveryCommitIsEntitled(node, s, es, k);
    }
  }

  /** Whatever the run from an empty disk, what is served was asked for by one of its requests, which was
      entitled when it was made; only the classes that request blocks are blocked. */
  lemma ServedWasRequested(node: Node, es: seq<Event>) returns (k: nat)
    requires AllFaultsOk(es) && Resolve(Run(node, EMPTY_STORE, es)).Some?
    ensures var s := Run(node, EMPTY_STORE, es);
            && CommittedAt(node, EMPTY_STORE, es, k, s.pointer.value)
            && Resolve(s).value.digest == es[k].request.candidate.digest
            && Resolve(s).value.sequence == es[k].request.candidate.sequence
            && Resolve(s).value.mode == (if es[k].request.Activate? then Production else Recovery)
            && match es[k].request
               case Recover(_, Exceptional(id, _, _, _, _, _, _, _, blocked)) =>
                 Resolve(s).value.blocked == blocked && Resolve(s).value.recoveryAuthorization == Some(id)
               case _ => Resolve(s).value.blocked == [] && Resolve(s).value.recoveryAuthorization == None
  {
    TraceEndsAtRun(node, EMPTY_STORE, es);
    k := LastCommit(node, EMPTY_STORE, es, |es|);
  }

  // ---------------------------------------------------------------- what an uninterrupted request does

  /** The package that would be staged passes verification: the one on disk, if there is one. */
  predicate Sound(s: Store, c: Candidate) {
    if c.digest in s.packages then s.packages[c.digest].valid else c.package.valid
  }

  lemma UnsoundStays(node: Node, s: Store, r: Request)
    requires Entitled(node, s, r) && !Sound(s, r.candidate)
    ensures Step(node, s, Event(r, SMOOTH, None)).pointer == s.pointer
  {
    var e := Event(r, SMOOTH, None);
    EntitledIsDecided(node, s, r);
    PrepareEffect(s, r, SMOOTH, Landed(node, s, e));
  }

  /** Uninterrupted, a request ends in the pointer it asks for if and only if it is entitled and its package
      is sound; otherwise the pointer stays. */
  lemma UninterruptedCommitsIff(node: Node, s: Store, r: Request)
    ensures var t := Step(node, s, Event(r, SMOOTH, None));
            if Entitled(node, s, r) && Sound(s, r.candidate)
            then t.pointer.Some? && Asked(s, r, t.pointer.value) else t.pointer == s.pointer
  {
    EntitledIsDecided(node, s, r);
    if !Entitled(node, s, r) {
      StepEffect(node, s, Event(r, SMOOTH, None));
    } else if Sound(s, r.candidate) {
      SmoothStep(node, s, r);
      NextIsAsked(s, r);
    } else {
      UnsoundStays(node, s, r);
    }
  }

  /** The stages a request takes its release through. */
  function Stages(s: Store, r: Request): seq<ReleaseStage> {
    if !Sound(s, r.candidate) then [STAGED, REJECTED]
    else [STAGED, VERIFIED, INDEXED, CANARY_TESTED, READY] + [if r.Activate? then ACTIVE else RECOVERY]
  }

  function Before(s: Store, digest: string): seq<ReleaseStage> {
    if digest in s.states then s.states[digest].history else []
  }

  lemma TwoWrites(t: Store, a: Write, b: Write)
    ensures ApplyAll(t, [a]) == Apply(t, a) && ApplyAll(t, [a, b]) == Apply(Apply(t, a), b)
  {
    ApplyOne(t, a);
    ApplyOne(Apply(t, a), b);
    assert [a, b] == [a] + [b];
    ApplyAllConcat(t, [a], [b]);
  }

  lemma UnsoundTail(s: Store, r: Request)
    requires !Sound(s, r.candidate)
    ensures var rejected := Record(After(s, r, 2), r.candidate, REJECTED, true);
            Tail(s, r, SMOOTH).writes ==
            if ActiveDigest(s) == Some(r.candidate.digest) then [rejected] else [rejected, WriteCounter(NextCounter(s))]
  {
  }

  lemma UnsoundEnds(node: Node, s: Store, r: Request)
    requires Decide(s, r, node.event, node.site) == Proceed && !Sound(s, r.candidate)
    ensures var u := Apply(After(s, r, 2), Record(After(s, r, 2), r.candidate, REJECTED, true));
            Step(node, s, Event(r, SMOOTH, None)) ==
            if ActiveDigest(s) == Some(r.candidate.digest) then u else u.(counter := Some(NextCounter(s)))
  {
    PrepareEnd(s, r, SMOOTH);
    var ws, t := Prepare(s, r, SMOOTH).writes, After(s, r, 2);
    assert ws[..|ws|] == ws;
    UnsoundTail(s, r);
    TwoWrites(t, Record(t, r.candidate, REJECTED, true), WriteCounter(NextCounter(s)));
  }

  /** What an entitled request is told, uninterrupted, and the stages it leaves on record: with a sound package the
      success of the recovery or activation under the pointer's counter, otherwise the failure and what stays live;
      nothing at all if the live release itself fails. */
  lemma EntitledIsTold(node: Node, s: Store, r: Request)
    requires Entitled(node, s, r)
    ensures var e := Event(r, SMOOTH, None);
            var t, receipt := Step(node, s, e), AttemptOf(node, s, e).receipt;
            && HasGone(s, r, t)
            && if Sound(s, r.candidate) then Succeeded(r, t, receipt)
               else if s.pointer.Some? && s.pointer.value.activeDigest == r.candidate.digest then receipt.None?
               else Failed(s, r, t, receipt)
  {
    EntitledIsDecided(node, s, r);
    if Sound(s, r.candidate) {
      SoundIsTold(node, s, r);
    } else {
      UnsoundIsTold(node, s, r);
    }
  }

  predicate HasGone(s: Store, r: Request, t: Store) {
    var d := r.candidate.digest;
    d in t.states && t.states[d].history == Before(s, d) + Stages(s, r)
  }

  /** Success or recovery, under the counter of the new pointer. */
  predicate Succeeded(r: Request, t: Store, receipt: Option<Receipt>) {
    && receipt.Some? && t.pointer.Some?
    && var c := r.candidate;
       receipt.value == Receipt(c.digest, c.sequence, Some(c.digest), c.sequence,
                                if r.Activate? then Success else Recovered,
                                if r.Activate? then ACTIVATED else RECOVERY_ACTIVATED, t.pointer.value.deviceCounter)
  }

  /** A failure, under the next counter, that names what stays live. */
  predicate Failed(s: Store, r: Request, t: Store, receipt: Option<Receipt>) {
    && receipt.Some? && CountsOn(s, receipt.value.counter) && t.counter == Some(receipt.value.counter)
    && receipt.value.verdict == FailedResult && receipt.value.reason == ACTIVATION_FAILED
    && Stands(s, r.candidate, receipt.value)
  }

  lemma SoundIsTold(node: Node, s: Store, r: Request)
    requires Decide(s, r, node.event, node.site) == Proceed && Sound(s, r.candidate)
    ensures var e := Event(r, SMOOTH, None);
            HasGone(s, r, Step(node, s, e)) && Succeeded(r, Step(node, s, e), AttemptOf(node, s, e).receipt)
  {
    SmoothStep(node, s, r);
    assert PREPARATION + [FinalStage(r)] == Stages(s, r);
    assert History(s, r.candidate.digest) + PREPARATION + [FinalStage(r)] == Before(s, r.candidate.digest) + Stages(s, r);
  }

  lemma UnsoundIsTold(node: Node, s: Store, r: Request)
    requires Decide(s, r, node.event, node.site) == Proceed && !Sound(s, r.candidate)
    ensures var e := Event(r, SMOOTH, None);
            && HasGone(s, r, Step(node, s, e))
            && if ActiveDigest(s) == Some(r.candidate.digest) then AttemptOf(node, s, e).receipt.None?
               else Failed(s, r, Step(node, s, e), AttemptOf(node, s, e).receipt)
  {
    UnsoundEnds(node, s, r);
    assert PREPARATION[..1] == [STAGED] && [STAGED] + [REJECTED] == Stages(s, r);
    assert History(s, r.candidate.digest) + [STAGED] + [REJECTED] == Before(s, r.candidate.digest) + Stages(s, r);
  }

  /** The receipt names what the request wanted and what stays live. */
  predicate Stands(s: Store, c: Candidate, receipt: Receipt) {
    && receipt.desiredDigest == c.digest && receipt.desiredSequence == c.sequence
    && (s.pointer.None? ==> receipt.activatedDigest.None? && receipt.activatedSequence == 0)
    && (s.pointer.Some? ==>
          && receipt.activatedDigest == Some(s.pointer.value.activeDigest)
          && (s.pointer.value.activeDigest != c.digest ==> receipt.activatedSequence == s.pointer.value.activeSequence))
  }

  /** Nothing of the handler takes effect. */
  function CutShort(n: nat): Faults {
    Faults(n, true, false, false, false, false)
  }

  lemma CutShortEnds(node: Node, s: Store, r: Request, n: nat)
    requires Decide(s, r, node.event, node.site) == Proceed && Sound(s, r.candidate) && n < STEPS
    ensures Step(node, s, Event(r, CutShort(n), None)) == After(s, r, WritesIn(n))
  {
    PrepareEnd(s, r, CutShort(n));
    var ws := Prepare(s, r, CutShort(n)).writes;
    assert ws[..|ws|] == ws && Tail(s, r, CutShort(n)).writes == [];
  }

  /** How many stages are on record after the first n steps: one for each of steps 2 to 6 and one for step 9. */
  function Recorded(n: nat): nat {
    if n <= 1 then 0 else if n <= 6 then n - 1 else if n <= 8 then 5 else 6
  }

  lemma HistoryAfterWrites(s: Store, r: Request, n: nat)
    requires Sound(s, r.candidate) && 2 <= n < STEPS
    ensures var d := r.candidate.digest;
            && d in After(s, r, WritesIn(n)).states
            && After(s, r, WritesIn(n)).states[d].history == Before(s, d) + Stages(s, r)[..Recorded(n)]
  {
    var k, d := WritesIn(n), r.candidate.digest;
    assert Stages(s, r)[..5] == PREPARATION && Stages(s, r) == PREPARATION + [FinalStage(r)];
    if k < 8 {
      assert PREPARATION[..Min(k - 1, 5)] == Stages(s, r)[..Recorded(n)];
    } else {
      assert Before(s, d) + PREPARATION + [FinalStage(r)] == Before(s, d) + Stages(s, r)[..6];
    }
  }

  /** An attempt cut short after any step before the last: the package is staged first, the stages are recorded one by
      one, the counter is raised before the receipt is signed, the final stage is recorded after that, and the pointer
      has not moved. */
  lemma CutShortAnywhere(node: Node, s: Store, r: Request, n: nat)
    requires Entitled(node, s, r) && Sound(s, r.candidate) && n < STEPS
    ensures var t, d := Step(node, s, Event(r, CutShort(n), None)), r.candidate.digest;
            && t.pointer == s.pointer
            && t.packages == (if n == 0 || d in s.packages then s.packages else s.packages[d := r.candidate.package])
            && (if n <= 6 then t.counter == s.counter else t.counter.Some? && CountsOn(s, t.counter.value))
            && (if n <= 1 then t.states == s.states
                else d in t.states && t.states[d].history == Before(s, d) + Stages(s, r)[..Recorded(n)])
  {
    EntitledIsDecided(node, s, r);
    CutShortEnds(node, s, r, n);
    if n >= 2 {
      HistoryAfterWrites(s, r, n);
    }
  }

  /** What a request that is not entitled is told, and that it leaves the releases on disk alone. */
  lemma RefusedMeans(node: Node, s: Store, r: Request)
    requires !Entitled(node, s, r)
    ensures var t, a := Step(node, s, Event(r, SMOOTH, None)), AttemptOf(node, s, Event(r, SMOOTH, None));
            && t.pointer == s.pointer && t.states == s.states && t.packages == s.packages
            && a.receipt.Some? && CountsOn(s, a.receipt.value.counter) && t.counter == Some(a.receipt.value.counter)
            && Stands(s, r.candidate, a.receipt.value)
            && (r.Recover? ==> a.receipt.value.verdict == RejectedResult && a.receipt.value.reason == RECOVERY_NOT_AUTHORIZED)
            && (r.Activate? && s.pointer.Some? && At(s, r.candidate.digest, r.candidate.sequence) ==>
                  a.receipt.value.verdict == Success && a.receipt.value.reason == ALREADY_ACTIVE)
            && (r.Activate? && s.pointer.Some? && !At(s, r.candidate.digest, r.candidate.sequence) ==>
                  a.receipt.value.verdict == RejectedResult && a.receipt.value.reason == SEQUENCE_ROLLBACK)
  {
    EntitledIsDecided(node, s, r);
    StepEffect(node, s, Event(r, SMOOTH, None));
  }
}
