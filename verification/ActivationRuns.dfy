/**
 Whole runs of one activation manager: any sequence of activations and recoveries, each possibly
 interrupted by exceptions and by a loss of power after any of its durable writes.
 */
module ActivationRuns {
  import opened Prelude
  import opened ActiveRelease
  import opened Activation
  import opened ActivationSafety

  datatype Node = Node(event: string, site: string)

  /** `crash == Some(n)`: power is lost after the first n writes of the attempt. */
  datatype Event = Event(request: Request, faults: Faults, crash: Option<nat>)

  function AttemptOf(node: Node, s: Store, e: Event): Attempt
    requires FaultsOk(e.faults)
  {
    Perform(s, e.request, node.event, node.site, e.faults)
  }

  function Landed(node: Node, s: Store, e: Event): nat
    requires FaultsOk(e.faults)
  {
    var n := |AttemptOf(node, s, e).writes|;
    if e.crash.Some? then Min(n, e.crash.value) else n
  }

  function Step(node: Node, s: Store, e: Event): Store
    requires FaultsOk(e.faults)
  {
    ApplyAll(s, AttemptOf(node, s, e).writes[..Landed(node, s, e)])
  }

  predicate AllFaultsOk(es: seq<Event>) {
    forall e :: e in es ==> FaultsOk(e.faults)
  }

  function Run(node: Node, s: Store, es: seq<Event>): Store
    requires AllFaultsOk(es)
    decreases |es|
  {
    if es == [] then s else Run(node, Step(node, s, es[0]), es[1..])
  }

  /** Each attempt is admissible and avoids the two faults that take the live release out of service. */
  ghost predicate SoundRun(node: Node, s: Store, es: seq<Event>)
    requires AllFaultsOk(es)
    decreases |es|
  {
    es != [] ==>
      && Admissible(es[0].request)
      && (Decide(s, es[0].request, node.event, node.site) == Proceed ==> !BreaksLive(s, es[0].request, es[0].faults))
      && SoundRun(node, Step(node, s, es[0]), es[1..])
  }

  // ---------------------------------------------------------------- service

  lemma {:induction false} RunKeepsInv(node: Node, s: Store, es: seq<Event>)
    requires AllFaultsOk(es) && Inv(s) && SoundRun(node, s, es)
    ensures Inv(Run(node, s, es))
    decreases |es|
  {
    if es != [] {
      var e := es[0];
      StepEffect(node, s, e);
      if Decide(s, e.request, node.event, node.site) == Proceed {
        PrepareKeepsInv(s, e.request, node.event, node.site, e.faults, Landed(node, s, e));
      } else {
        SameLiveServable(s, Step(node, s, e));
      }
      RunKeepsInv(node, Step(node, s, e), es[1..]);
    }
  }

  /** From an empty disk, whatever the run and wherever it stops, a present pointer passes the
      resolver's pointer check, its release passes the state check, and the release is served. */
  lemma EveryDurableStateIsServed(node: Node, es: seq<Event>)
    requires AllFaultsOk(es) && SoundRun(node, EMPTY_STORE, es)
    ensures var s := Run(node, EMPTY_STORE, es);
            s.pointer.Some? ==>
              var p := s.pointer.value;
              && PointerOk(p)
              && p.activeDigest in s.states
              && StateOk(s.states[p.activeDigest], p)
              && Resolve(s).Some?
              && Resolve(s).value.digest == p.activeDigest
              && Resolve(s).value.sequence == p.activeSequence
  {
    RunKeepsInv(node, EMPTY_STORE, es);
  }

  /** Each attempt that goes ahead is onto a digest other than the active one, and no exception follows
      the rename of the pointer. */
  ghost predicate OntoOtherDigests(node: Node, s: Store, es: seq<Event>)
    requires AllFaultsOk(es)
    decreases |es|
  {
    es != [] ==>
      && Admissible(es[0].request)
      && (Decide(s, es[0].request, node.event, node.site) == Proceed ==>
            Some(es[0].request.candidate.digest) != ActiveDigest(s))
      && !(es[0].faults.steps == STEPS && es[0].faults.raised)
      && OntoOtherDigests(node, Step(node, s, es[0]), es[1..])
  }

  lemma {:induction false} OntoOtherDigestsIsSound(node: Node, s: Store, es: seq<Event>)
    requires AllFaultsOk(es) && OntoOtherDigests(node, s, es)
    ensures SoundRun(node, s, es)
    decreases |es|
  {
    if es != [] {
      OntoOtherDigestsIsSound(node, Step(node, s, es[0]), es[1..]);
    }
  }

  /** Activations and recoveries each onto a digest other than the active one keep the node in service: in
      every durable state of any such run, wherever it stops, a present pointer passes the resolver's
      pointer check, its release passes the state check, and the release is served. */
  lemma OtherDigestsStayServed(node: Node, es: seq<Event>)
    requires AllFaultsOk(es) && OntoOtherDigests(node, EMPTY_STORE, es)
    ensures var s := Run(node, EMPTY_STORE, es);
            s.pointer.Some? ==>
              var p := s.pointer.value;
              && PointerOk(p)
              && p.activeDigest in s.states
              && StateOk(s.states[p.activeDigest], p)
              && Resolve(s).Some?
              && Resolve(s).value.digest == p.activeDigest
              && Resolve(s).value.sequence == p.activeSequence
  {
    OntoOtherDigestsIsSound(node, EMPTY_STORE, es);
    EveryDurableStateIsServed(node, es);
  }

  // ---------------------------------------------------------------- what one event changes

  lemma CounterWriteEffect(s: Store, f: Faults, n: nat)
    requires n <= |CounterWrites(s, f)|
    ensures var t := ApplyAll(s, CounterWrites(s, f)[..n]);
            t == if n == 0 then s else s.(counter := Some(NextCounter(s)))
  {
    if n == 1 {
      assert CounterWrites(s, f)[..1] == [WriteCounter(NextCounter(s))];
      ApplyOne(s, WriteCounter(NextCounter(s)));
    }
  }

  lemma AfterMark(s: Store, r: Request, k: nat)
    requires k <= 9
    ensures var t := After(s, r, k);
            && t.pointer == (if k == 9 then Some(NextPointer(s, r)) else s.pointer)
            && CounterMark(t) == if k >= 7 then NextCounter(s) else CounterMark(s)
  {
  }

  lemma TailMark(t: Store, c: Candidate, f: Faults, j: nat)
    requires j <= |ExceptionWrites(t, c, f)|
    ensures var u := ApplyAll(t, ExceptionWrites(t, c, f)[..j]);
            u.pointer == t.pointer && CounterMark(u) >= CounterMark(t)
  {
    TailFrame(t, c, f, j);
  }

  /** Pointer and counter after any prefix of an attempt that went ahead. */
  lemma PrepareEffect(s: Store, r: Request, f: Faults, k: nat)
    requires FaultsOk(f) && k <= |Prepare(s, r, f).writes|
    ensures var t := ApplyAll(s, Prepare(s, r, f).writes[..k]);
            && t.pointer == (if k >= 9 && Reached(s, r.candidate, f) == STEPS then Some(NextPointer(s, r)) else s.pointer)
            && CounterMark(t) >= CounterMark(s)
  {
    var n := WritesIn(Reached(s, r.candidate, f));
    PrefixForm(s, r, f, k);
    AfterMark(s, r, Min(k, n));
    if k > n {
      TailMark(After(s, r, n), r.candidate, f, k - n);
    }
  }

  lemma PrepareReceipt(s: Store, r: Request, f: Faults)
    requires FaultsOk(f) && Prepare(s, r, f).receipt.Some?
    ensures var a := Prepare(s, r, f);
            CounterMark(s) < a.receipt.value.counter <= CounterMark(ApplyAll(s, a.writes))
  {
    var n := WritesIn(Reached(s, r.candidate, f));
    var t := After(s, r, n);
    AfterMark(s, r, n);
    PrepareEnd(s, r, f);
    var h := ExceptionWrites(t, r.candidate, f);
    TailFrame(t, r.candidate, f, |h|);
    assert h[..|h|] == h;
  }

  /** An event either leaves the pointer alone or commits exactly `NextPointer`; counters only grow,
      and a receipt's counter lies strictly above the old mark and within the new one. */
  lemma StepEffect(node: Node, s: Store, e: Event)
    requires FaultsOk(e.faults)
    ensures var t := Step(node, s, e);
            var go := Decide(s, e.request, node.event, node.site) == Proceed;
            && (t.pointer == s.pointer || (go && t.pointer == Some(NextPointer(s, e.request))))
            && CounterMark(t) >= CounterMark(s)
            && (!go ==> t.states == s.states && t.packages == s.packages)
    ensures var a := AttemptOf(node, s, e);
            e.crash.None? && a.receipt.Some? ==>
              CounterMark(s) < a.receipt.value.counter <= CounterMark(Step(node, s, e))
  {
    var k := Landed(node, s, e);
    var a := AttemptOf(node, s, e);
    assert e.crash.None? ==> a.writes[..k] == a.writes;
    if Decide(s, e.request, node.event, node.site) == Proceed {
      PrepareEffect(s, e.request, e.faults, k);
      if a.receipt.Some? {
        PrepareReceipt(s, e.request, e.faults);
      }
    } else {
      CounterWriteEffect(s, e.faults, k);
    }
  }

  // ---------------------------------------------------------------- commits

  datatype Commit = Commit(pointer: Pointer, markers: seq<string>)

  /** The stores between the events of a run. */
  function Trace(node: Node, s: Store, es: seq<Event>): (ss: seq<Store>)
    requires AllFaultsOk(es)
    ensures |ss| == |es| + 1 && ss[0] == s
    decreases |es|
  {
    if es == [] then [s] else [s] + Trace(node, Step(node, s, es[0]), es[1..])
  }

  /** The pointers committed along a trace, with the recovery markers each one consumed. */
  function Commits(ss: seq<Store>, es: seq<Event>): seq<Commit>
    requires |ss| == |es| + 1
    decreases |es|
  {
    if es == [] then [] else
    (if ss[1].pointer != ss[0].pointer && ss[1].pointer.Some?
     then [Commit(ss[1].pointer.value, Markers(es[0].request))] else [])
    + Commits(ss[1..], es[1..])
  }

  /** `c` may follow a state with this floor, these used markers and this counter. */
  ghost predicate Advances(floor: int, used: seq<string>, counter: int, c: Commit) {
    && floor <= c.pointer.sequenceFloor
    && (c.pointer.mode == Production ==> floor < c.pointer.activeSequence)
    && used <= c.pointer.usedAuthorizations
    && (forall m :: m in c.markers ==> m !in used && m in c.pointer.usedAuthorizations)
    && counter < c.pointer.deviceCounter
  }

  /** Commit `d` comes after commit `c`: the floor does not fall, a production release exceeds the
      earlier floor (also after a recovery), no marker is consumed twice, counters increase. */
  ghost predicate Ordered(c: Commit, d: Commit) {
    && Advances(c.pointer.sequenceFloor, c.pointer.usedAuthorizations, c.pointer.deviceCounter, d)
    && (forall m :: m in c.markers ==> m !in d.markers)
  }

  /** The event leaves the pointer alone or advances it. */
  ghost predicate Evolution(s: Store, t: Store, e: Event) {
    t.pointer == s.pointer ||
    (t.pointer.Some?
     && Advances(Floor(s), Used(s), PointerCounter(s), Commit(t.pointer.value, Markers(e.request))))
  }

  ghost predicate Evolves(ss: seq<Store>, es: seq<Event>)
    requires |ss| == |es| + 1
  {
    forall k :: 0 <= k < |es| ==> Evolution(ss[k], ss[k + 1], es[k])
  }

  lemma EvolvesCons(s: Store, e: Event, ss: seq<Store>, es: seq<Event>)
    requires |ss| == |es| + 1 && Evolves(ss, es) && Evolution(s, ss[0], e)
    ensures Evolves([s] + ss, [e] + es)
  {
    var ts, fs := [s] + ss, [e] + es;
    forall k | 0 <= k < |fs| ensures Evolution(ts[k], ts[k + 1], fs[k]) {
      if k > 0 { assert ts[k] == ss[k - 1] && ts[k + 1] == ss[k] && fs[k] == es[k - 1]; }
    }
  }

  lemma NextPointerAdvances(node: Node, s: Store, r: Request)
    requires Decide(s, r, node.event, node.site) == Proceed
    ensures Advances(Floor(s), Used(s), PointerCounter(s), Commit(NextPointer(s, r), Markers(r)))
  {
    assert Used(s) <= Used(s) + Markers(r);
  }

  lemma StepEvolves(node: Node, s: Store, e: Event)
    requires FaultsOk(e.faults)
    ensures Evolution(s, Step(node, s, e), e)
  {
    StepEffect(node, s, e);
    if Step(node, s, e).pointer != s.pointer { NextPointerAdvances(node, s, e.request); }
  }

  lemma {:induction false} TraceEvolves(node: Node, s: Store, es: seq<Event>)
    requires AllFaultsOk(es)
    ensures Evolves(Trace(node, s, es), es)
    decreases |es|
  {
    if es != [] {
      var t := Step(node, s, es[0]);
      StepEvolves(node, s, es[0]);
      TraceEvolves(node, t, es[1..]);
      EvolvesCons(s, es[0], Trace(node, t, es[1..]), es[1..]);
      assert es == [es[0]] + es[1..];
    }
  }

  lemma EvolvesTail(ss: seq<Store>, es: seq<Event>)
    requires |ss| == |es| + 1 && Evolves(ss, es) && es != []
    ensures Evolves(ss[1..], es[1..]) && Evolution(ss[0], ss[1], es[0])
  {
    forall k | 0 <= k < |es[1..]| ensures Evolution(ss[1..][k], ss[1..][k + 1], es[1..][k]) {
      assert Evolution(ss[k + 1], ss[k + 2], es[k + 1]);
    }
  }

  /** All of these commits may follow the state. */
  ghost predicate AllAdvance(s: Store, cs: seq<Commit>) {
    forall i :: 0 <= i < |cs| ==> Advances(Floor(s), Used(s), PointerCounter(s), cs[i])
  }

  ghost predicate Pairwise(cs: seq<Commit>) {
    forall i, j :: 0 <= i < j < |cs| ==> Ordered(cs[i], cs[j])
  }

  /** A commit onto `t` that may follow `s`, and commits that may follow `t`. */
  lemma AdvanceThrough(s: Store, t: Store, c: Commit, rest: seq<Commit>)
    requires Advances(Floor(s), Used(s), PointerCounter(s), c) && t.pointer == Some(c.pointer) && AllAdvance(t, rest)
    ensures AllAdvance(s, [c] + rest)
    ensures Pairwise(rest) ==> Pairwise([c] + rest)
  {
    forall i | 0 <= i < |rest|
      ensures Advances(Floor(s), Used(s), PointerCounter(s), rest[i]) && Ordered(c, rest[i])
    {
      assert Advances(Floor(t), Used(t), PointerCounter(t), rest[i]);
    }
  }

  lemma {:induction false} CommitsPairwise(ss: seq<Store>, es: seq<Event>)
    requires |ss| == |es| + 1 && Evolves(ss, es)
    ensures AllAdvance(ss[0], Commits(ss, es)) && Pairwise(Commits(ss, es))
    decreases |es|
  {
    if es != [] {
      EvolvesTail(ss, es);
      var rest := Commits(ss[1..], es[1..]);
      CommitsPairwise(ss[1..], es[1..]);
      if ss[1].pointer == ss[0].pointer {
        assert Commits(ss, es) == rest;
      } else {
        var c := Commit(ss[1].pointer.value, Markers(es[0].request));
        assert Commits(ss, es) == [c] + rest;
        AdvanceThrough(ss[0], ss[1], c, rest);
      }
    }
  }

  lemma TraceCons(node: Node, s: Store, es: seq<Event>)
    requires AllFaultsOk(es) && es != []
    ensures Trace(node, s, es)[|es|] == Trace(node, Step(node, s, es[0]), es[1..])[|es| - 1]
  {
  }

  lemma {:induction false} TraceEndsAtRun(node: Node, s: Store, es: seq<Event>)
    requires AllFaultsOk(es)
    ensures Trace(node, s, es)[|es|] == Run(node, s, es)
    decreases |es|
  {
    if es != [] {
      TraceCons(node, s, es);
      TraceEndsAtRun(node, Step(node, s, es[0]), es[1..]);
    }
  }

  /** Any two commits of any run are ordered; the trace they are read from ends where the run ends. */
  lemma CommitsOrdered(node: Node, s: Store, es: seq<Event>)
    requires AllFaultsOk(es)
    ensures Pairwise(Commits(Trace(node, s, es), es))
    ensures Trace(node, s, es)[|es|] == Run(node, s, es)
  {
    TraceEndsAtRun(node, s, es);
    TraceEvolves(node, s, es);
    CommitsPairwise(Trace(node, s, es), es);
  }

  lemma {:induction false} FloorNeverFalls(node: Node, s: Store, es: seq<Event>)
    requires AllFaultsOk(es)
    ensures Floor(s) <= Floor(Run(node, s, es))
    decreases |es|
  {
    if es != [] {
      StepEffect(node, s, es[0]);
      FloorNeverFalls(node, Step(node, s, es[0]), es[1..]);
    }
  }

  // ---------------------------------------------------------------- receipts

  /** Counters of the receipts handed out along a run, in order. */
  function ReceiptCounters(node: Node, s: Store, es: seq<Event>): seq<int>
    requires AllFaultsOk(es)
    decreases |es|
  {
    if es == [] then [] else
    var a := AttemptOf(node, s, es[0]);
    (if es[0].crash.None? && a.receipt.Some? then [a.receipt.value.counter] else [])
    + ReceiptCounters(node, Step(node, s, es[0]), es[1..])
  }

  lemma IncreasingCons(floor: int, next: int, c: seq<int>, rest: seq<int>)
    requires |c| <= 1 && floor <= next && (c != [] ==> floor < c[0] <= next)
    requires StrictlyIncreasing(rest) && forall x :: x in rest ==> next < x
    ensures StrictlyIncreasing(c + rest) && forall x :: x in c + rest ==> floor < x
  {
    assert forall k :: 0 <= k < |rest| ==> rest[k] in rest;
  }

  lemma {:induction false} ReceiptCountersIncrease(node: Node, s: Store, es: seq<Event>)
    requires AllFaultsOk(es)
    ensures StrictlyIncreasing(ReceiptCounters(node, s, es))
    ensures forall c :: c in ReceiptCounters(node, s, es) ==> CounterMark(s) < c
    decreases |es|
  {
    if es != [] {
      StepEffect(node, s, es[0]);
      var t, a := Step(node, s, es[0]), AttemptOf(node, s, es[0]);
      ReceiptCountersIncrease(node, t, es[1..]);
      IncreasingCons(CounterMark(s), CounterMark(t),
                     if es[0].crash.None? && a.receipt.Some? then [a.receipt.value.counter] else [],
                     ReceiptCounters(node, t, es[1..]));
    }
  }

  /** The attempt hands out a receipt that reports an activation, and the pointer has not moved. */
  predicate FalseSuccess(node: Node, s: Store, e: Event)
    requires FaultsOk(e.faults)
  {
    var a := AttemptOf(node, s, e);
    && a.receipt.Some? && a.receipt.value.reason in {ACTIVATED, RECOVERY_ACTIVATED}
    && Step(node, s, e).pointer == s.pointer
  }

  /** A receipt that reports an activation is handed out without the pointer having moved exactly when
      the candidate carries the live digest and the attempt failed after the receipt was signed. */
  lemma FalseSuccessIff(node: Node, s: Store, e: Event)
    requires FaultsOk(e.faults) && e.crash.None?
    requires Decide(s, e.request, node.event, node.site) == Proceed
    ensures FalseSuccess(node, s, e) <==>
            Some(e.request.candidate.digest) == ActiveDigest(s) && 8 <= Reached(s, e.request.candidate, e.faults) <= 9
  {
    var r, f := e.request, e.faults;
    var n := WritesIn(Reached(s, r.candidate, f));
    PrepareEffect(s, r, f, Landed(node, s, e));
    AfterMark(s, r, n);
    assert NextPointer(s, r).deviceCounter > PointerCounter(s);
  }

  /** What a caller can check before the call: some failure can produce such a receipt if and only if the
      candidate carries the live digest and its staged package passes verification. */
  lemma FalseSuccessIsPossibleIff(node: Node, s: Store, r: Request)
    requires Decide(s, r, node.event, node.site) == Proceed
    ensures (exists f :: FaultsOk(f) && FalseSuccess(node, s, Event(r, f, None)))
       <==> Some(r.candidate.digest) == ActiveDigest(s) && StagedPackage(s, r.candidate).valid
  {
    forall f | FaultsOk(f)
      ensures FalseSuccess(node, s, Event(r, f, None)) <==>
              Some(r.candidate.digest) == ActiveDigest(s) && 8 <= Reached(s, r.candidate, f) <= 9
    {
      FalseSuccessIff(node, s, Event(r, f, None));
    }
    assert Reached(s, r.candidate, UNWRITTEN) == if StagedPackage(s, r.candidate).valid then 8 else 2;
  }

  /** The final state could not be recorded after the receipt was signed. */
  const UNWRITTEN := Faults(8, true, false, false, false, false)

  /** A live production release is at the floor. */
  predicate ProductionAtFloor(s: Store) {
    s.pointer.Some? && s.pointer.value.mode == Production ==> s.pointer.value.activeSequence == s.pointer.value.sequenceFloor
  }

  lemma {:induction false} RunKeepsProductionAtFloor(node: Node, s: Store, es: seq<Event>)
    requires AllFaultsOk(es) && ProductionAtFloor(s)
    ensures ProductionAtFloor(Run(node, s, es))
    decreases |es|
  {
    if es != [] {
      StepEffect(node, s, es[0]);
      RunKeepsProductionAtFloor(node, Step(node, s, es[0]), es[1..]);
    }
  }

  /** An ALREADY_ACTIVE receipt claims that the candidate's sequence is active. After any run it is wrong
      exactly when a recovery has put a release below the floor in service. */
  lemma AlreadyActiveIsWrongIff(node: Node, es: seq<Event>, e: Event)
    requires AllFaultsOk(es) && FaultsOk(e.faults) && e.faults.receiptIssued && e.crash.None?
    requires e.request.Activate? && e.request.candidate.sequence >= 1
    requires Decide(Run(node, EMPTY_STORE, es), e.request, node.event, node.site) == AlreadyActive
    ensures var s := Run(node, EMPTY_STORE, es);
            var a := AttemptOf(node, s, e);
            && a.receipt.Some? && a.receipt.value.activatedDigest == ActiveDigest(s)
            && (a.receipt.value.activatedSequence != ActiveSequence(s) <==>
                  s.pointer.Some? && s.pointer.value.mode == Recovery && ActiveSequence(s) != Floor(s))
  {
    RunKeepsProductionAtFloor(node, EMPTY_STORE, es);
  }

  // ---------------------------------------------------------------- concrete failures

  const ZEROES := "sha256:" + seq(64, _ => '0')
  const ONES := "sha256:" + seq(64, _ => '1')

  /** A node serving (ONES, 1) in production. */
  const SERVING := Store(
    Some(Pointer(ONES, 1, 1, Production, 1, [], None)), Some(1),
    map[ONES := ReleaseState(ONES, 1, ACTIVE, PREPARATION + [ACTIVE], false)],
    map[ONES := Package(ONES, true)])

  lemma ServingIsServed()
    ensures Inv(SERVING)
  {
    assert (PREPARATION + [ACTIVE])[4..] == [READY, ACTIVE];
  }

  /** The live digest offered again at sequence 2 is taken out of service as soon as it is staged. */
  lemma LiveDigestLosesService()
    ensures var r := Activate(Candidate(ONES, 2, Package(ONES, true)));
            var f := Faults(2, true, false, false, false, false);
            && Inv(SERVING) && Admissible(r) && Decide(SERVING, r, "event", "site") == Proceed
            && !Servable(ApplyAll(SERVING, Prepare(SERVING, r, f).writes))
  {
    ServingIsServed();
    var r := Activate(Candidate(ONES, 2, Package(ONES, true)));
    var f := Faults(2, true, false, false, false, false);
    PrepareEnd(SERVING, r, f);
    assert Tail(SERVING, r, f).writes == [];
  }

  /** An exception raised after the pointer was renamed (the directory sync failed): the handler first
      records REJECTED on the release that is now live, and only then finds it live. */
  lemma LateExceptionLosesService()
    ensures var r := Activate(Candidate(ZEROES, 2, Package(ZEROES, true)));
            var f := Faults(10, true, true, true, false, false);
            && Inv(SERVING) && Admissible(r) && Decide(SERVING, r, "event", "site") == Proceed
            && Prepare(SERVING, r, f).receipt == Some(SuccessReceipt(SERVING, r))
            && !Servable(ApplyAll(SERVING, Prepare(SERVING, r, f).writes))
  {
    ServingIsServed();
    var r := Activate(Candidate(ZEROES, 2, Package(ZEROES, true)));
    var f := Faults(10, true, true, true, false, false);
    assert ONES[7] != ZEROES[7];
    PrepareEnd(SERVING, r, f);
    var t := After(SERVING, r, 9);
    var h := Tail(SERVING, r, f).writes;
    assert h == [Record(t, r.candidate, REJECTED, true)];
    ApplyOne(t, h[0]);
    RejectedNotServable(t, r.candidate, true);
  }

  const SITE := Node("event", "site")
  const SMOOTH := Faults(STEPS, false, true, true, true, true)

  /** The live digest is offered again at sequence 2 and its final state cannot be recorded: the receipt
      says sequence 2 was activated, and 1 stays active. */
  lemma LiveDigestFalseSuccess()
    ensures var e := Event(Activate(Candidate(ONES, 2, Package(ONES, true))), UNWRITTEN, None);
            && Inv(SERVING) && Admissible(e.request)
            && FalseSuccess(SITE, SERVING, e)
            && AttemptOf(SITE, SERVING, e).receipt.value.activatedSequence == 2
            && ActiveSequence(Step(SITE, SERVING, e)) == 1
  {
    ServingIsServed();
    FalseSuccessIff(SITE, SERVING, Event(Activate(Candidate(ONES, 2, Package(ONES, true))), UNWRITTEN, None));
  }

  /** An attempt that nothing interrupts ends in the ninth store. */
  lemma SmoothStep(node: Node, s: Store, r: Request)
    requires Decide(s, r, node.event, node.site) == Proceed && StagedPackage(s, r.candidate).valid
    ensures Step(node, s, Event(r, SMOOTH, None)) == After(s, r, 9)
  {
    PrepareEnd(s, r, SMOOTH);
    var ws := Prepare(s, r, SMOOTH).writes;
    assert ws[..|ws|] == ws && Tail(s, r, SMOOTH).writes == [];
  }

  lemma RunTwo(node: Node, s: Store, a: Event, b: Event)
    requires FaultsOk(a.faults) && FaultsOk(b.faults)
    ensures Run(node, s, [a, b]) == Step(node, Step(node, s, a), b)
  {
    var t := Step(node, s, a);
    assert [a, b][1..] == [b] && [b][1..] == [];
    assert Run(node, t, [b]) == Step(node, t, b);
  }

  const FIRST := Activate(Candidate(ONES, 2, Package(ONES, true)))
  const BACK := Recover(Candidate(ZEROES, 1, Package(ZEROES, true)), PreAuthorized("back", ZEROES, 2, ONES, "site"))
  const AGAIN := Activate(Candidate(ZEROES, 2, Package(ZEROES, true)))

  /** Activate (ONES, 2), recover onto (ZEROES, 1), offer (ZEROES, 2): the receipt says that sequence 2 is
      active, and 1 is. */
  lemma RecoveredSequenceIsMisreported()
    ensures var es := [Event(FIRST, SMOOTH, None), Event(BACK, SMOOTH, None)];
            var s := Run(SITE, EMPTY_STORE, es);
            var e := Event(AGAIN, SMOOTH, None);
            && Admissible(FIRST) && Admissible(BACK) && Admissible(AGAIN)
            && Decide(s, AGAIN, "event", "site") == AlreadyActive
            && AttemptOf(SITE, s, e).receipt.Some?
            && AttemptOf(SITE, s, e).receipt.value.activatedSequence == 2 && ActiveSequence(s) == 1
  {
    assert ONES[7] != ZEROES[7];
    SmoothStep(SITE, EMPTY_STORE, FIRST);
    SmoothStep(SITE, After(EMPTY_STORE, FIRST, 9), BACK);
    RunTwo(SITE, EMPTY_STORE, Event(FIRST, SMOOTH, None), Event(BACK, SMOOTH, None));
  }
}
