/**
 Crash safety of activation: what every durable state can serve, and what a run never undoes.
 */
module ActivationSafety {
  import opened Prelude
  import opened ActiveRelease
  import opened Activation

  // ---------------------------------------------------------------- the disk after k writes

  lemma HistoryStep(s: Store, r: Request, k: nat)
    requires 1 <= k <= 5
    ensures HistoryAfter(s, r, k + 1) == History(s, r.candidate.digest) + PREPARATION[..k]
  {
  }

  lemma RecordStep(s: Store, r: Request, k: nat)
    requires 1 <= k <= 5
    ensures Apply(After(s, r, k), Planned(s, r, k)) == After(s, r, k + 1)
  {
    HistoryStep(s, r, k);
  }

  lemma LastSteps(s: Store, r: Request, k: nat)
    requires 6 <= k < 9
    ensures Apply(After(s, r, k), Planned(s, r, k)) == After(s, r, k + 1)
  {
    assert PREPARATION[..5] == PREPARATION;
  }

  lemma StageStep(s: Store, r: Request)
    ensures Apply(After(s, r, 0), Planned(s, r, 0)) == After(s, r, 1)
  {
    if r.candidate.digest in s.packages {
      assert s.packages[r.candidate.digest := s.packages[r.candidate.digest]] == s.packages;
    }
  }

  lemma AfterStep(s: Store, r: Request, k: nat)
    requires k < 9
    ensures Apply(After(s, r, k), Planned(s, r, k)) == After(s, r, k + 1)
  {
    if k == 0 {
      StageStep(s, r);
    } else if k <= 5 {
      RecordStep(s, r, k);
    } else {
      LastSteps(s, r, k);
    }
  }

  lemma {:induction false} AfterIsPrefix(s: Store, r: Request, n: nat, k: nat)
    requires k <= n <= 9
    ensures ApplyAll(s, TryWrites(s, r, n)[..k]) == After(s, r, k)
  {
    var ws := TryWrites(s, r, n)[..k];
    if k > 0 {
      assert ws[..k - 1] == TryWrites(s, r, n)[..k - 1] && ws[k - 1] == Planned(s, r, k - 1);
      AfterIsPrefix(s, r, n, k - 1);
      AfterStep(s, r, k - 1);
    }
  }

  lemma {:induction false} ApplyAllConcat(s: Store, a: seq<Write>, b: seq<Write>)
    ensures ApplyAll(s, a + b) == ApplyAll(ApplyAll(s, a), b)
    decreases |b|
  {
    if b == [] {
      assert a + b == a;
    } else {
      var n := |b| - 1;
      assert (a + b)[..|a + b| - 1] == a + b[..n];
      ApplyAllConcat(s, a, b[..n]);
    }
  }

  lemma ApplyOne(s: Store, w: Write)
    ensures ApplyAll(s, [w]) == Apply(s, w)
  {
    assert [w][..0] == [];
    assert ApplyAll(s, [w][..0]) == s;
  }

  // ---------------------------------------------------------------- invariant

  ghost predicate Inv(s: Store) {
    && Servable(s)
    && forall d :: d in s.packages ==> s.packages[d].manifestDigest == d
  }

  /** What the live release needs from the disk is unchanged. */
  ghost predicate SameLive(s: Store, t: Store) {
    && t.pointer == s.pointer
    && (s.pointer.Some? ==>
          var d := s.pointer.value.activeDigest;
          && (d in s.states ==> d in t.states && t.states[d] == s.states[d])
          && (d in s.packages ==> d in t.packages && t.packages[d] == s.packages[d]))
  }

  lemma SameLiveServable(s: Store, t: Store)
    requires Servable(s) && SameLive(s, t)
    ensures Servable(t)
  {
  }

  lemma NextPointerOk(s: Store, r: Request, event: string, site: string)
    requires Servable(s) && Admissible(r) && Decide(s, r, event, site) == Proceed
    ensures PointerOk(NextPointer(s, r))
  {
    var p := NextPointer(s, r);
    var m := Markers(r);
    assert forall i :: 0 <= i < |m| ==> m[i] in m && m[i] !in Used(s);
    if r.Recover? && r.authorization.Exceptional? {
      assert m[0][0] == 'a' && m[1][0] == 'n';
    }
    assert Distinct(m);
    DistinctAppend(Used(s), m);
    if p.policy.Some? {
      assert p.usedAuthorizations[|Used(s)|] == m[0] && p.usedAuthorizations[|Used(s)| + 1] == m[1];
    }
  }

  lemma DistinctAppend<T>(a: seq<T>, b: seq<T>)
    requires Distinct(a) && Distinct(b)
    requires forall x :: x in b ==> x !in a
    ensures Distinct(a + b)
  {
    forall i, j | 0 <= i < j < |a + b| ensures (a + b)[i] != (a + b)[j] {
      if i < |a| <= j { assert b[j - |a|] in b; assert a[i] in a; }
    }
  }

  // ---------------------------------------------------------------- one attempt

  /** The three ways an attempt on the live digest, or an exception after the pointer was renamed
      into place, puts the live release out of service. */
  ghost predicate BreaksLive(s: Store, r: Request, f: Faults) {
    var reached := Reached(s, r.candidate, f);
    if Some(r.candidate.digest) == ActiveDigest(s)
    then reached >= 2 || f.rejectLands
    else reached == STEPS && f.raised && f.rejectLands
  }

  lemma BodyPrefixServable(s: Store, r: Request, event: string, site: string, k: nat)
    requires Inv(s) && Admissible(r) && Decide(s, r, event, site) == Proceed && k <= 9
    requires k < 2 || Some(r.candidate.digest) != ActiveDigest(s)
    requires k >= 3 ==> StagedPackage(s, r.candidate).valid
    ensures Inv(After(s, r, k))
  {
    var t := After(s, r, k);
    if k < 9 {
      assert SameLive(s, t);
      SameLiveServable(s, t);
    } else {
      NextPointerOk(s, r, event, site);
      var d := r.candidate.digest;
      var h := t.states[d].history;
      assert h[|h| - 2..] == [READY, FinalStage(r)];
      assert PackageOk(t.packages[d], t.pointer.value);
    }
  }

  lemma RejectedNotServable(s: Store, c: Candidate, reason: bool)
    requires Some(c.digest) == ActiveDigest(s)
    ensures !Servable(Apply(s, Record(s, c, REJECTED, reason)))
  {
  }

  /** The tail is the exception handler's writes. */
  ghost predicate TailIsHandler(s: Store, r: Request, f: Faults)
    requires FaultsOk(f)
  {
    Tail(s, r, f).writes == ExceptionWrites(After(s, r, WritesIn(Reached(s, r.candidate, f))), r.candidate, f)
  }

  lemma PrefixOfTail(s: Store, a: seq<Write>, b: seq<Write>, k: nat)
    requires |a| <= k <= |a + b|
    ensures ApplyAll(s, (a + b)[..k]) == ApplyAll(ApplyAll(s, a), b[..k - |a|])
  {
    assert (a + b)[..k] == a + b[..k - |a|];
    ApplyAllConcat(s, a, b[..k - |a|]);
  }

  lemma BodyEnd(s: Store, r: Request, n: nat)
    requires n <= 9
    ensures ApplyAll(s, TryWrites(s, r, n)) == After(s, r, n)
  {
    AfterIsPrefix(s, r, n, n);
    assert TryWrites(s, r, n)[..n] == TryWrites(s, r, n);
  }

  /** The store after any prefix of an attempt's writes: a prefix of the try block, then the handler. */
  lemma PrefixForm(s: Store, r: Request, f: Faults, k: nat)
    requires FaultsOk(f) && k <= |Prepare(s, r, f).writes|
    ensures var n := WritesIn(Reached(s, r.candidate, f));
            ApplyAll(s, Prepare(s, r, f).writes[..k]) ==
            if k <= n then After(s, r, k) else ApplyAll(After(s, r, n), Tail(s, r, f).writes[..k - n])
    ensures k > WritesIn(Reached(s, r.candidate, f)) ==> TailIsHandler(s, r, f)
  {
    var n := WritesIn(Reached(s, r.candidate, f));
    var body, tail := TryWrites(s, r, n), Tail(s, r, f).writes;
    if k <= n {
      assert (body + tail)[..k] == body[..k];
      AfterIsPrefix(s, r, n, k);
    } else {
      BodyEnd(s, r, n);
      PrefixOfTail(s, body, tail, k);
    }
  }

  /** A whole attempt that went ahead: the try block's store, then the tail. */
  lemma PrepareEnd(s: Store, r: Request, f: Faults)
    requires FaultsOk(f)
    ensures ApplyAll(s, Prepare(s, r, f).writes) ==
            ApplyAll(After(s, r, WritesIn(Reached(s, r.candidate, f))), Tail(s, r, f).writes)
  {
    var n := WritesIn(Reached(s, r.candidate, f));
    ApplyAllConcat(s, TryWrites(s, r, n), Tail(s, r, f).writes);
    BodyEnd(s, r, n);
  }

  /** Every durable state of an attempt, at whatever point power is lost, can be served. */
  lemma PrepareKeepsInv(s: Store, r: Request, event: string, site: string, f: Faults, k: nat)
    requires Inv(s) && Admissible(r) && FaultsOk(f) && Decide(s, r, event, site) == Proceed
    requires !BreaksLive(s, r, f) && k <= |Prepare(s, r, f).writes|
    ensures Inv(ApplyAll(s, Prepare(s, r, f).writes[..k]))
  {
    var n := WritesIn(Reached(s, r.candidate, f));
    PrefixForm(s, r, f, k);
    if k <= n {
      BodyPrefixServable(s, r, event, site, k);
    } else {
      BodyPrefixServable(s, r, event, site, n);
      HandlerKeepsInv(After(s, r, n), r.candidate, f, k - n);
    }
  }

  /** `u` is `t` after some of the handler's writes. */
  ghost predicate Framed(t: Store, c: Candidate, f: Faults, u: Store) {
    && u.pointer == t.pointer && u.packages == t.packages
    && CounterMark(u) >= CounterMark(t)
    && (ActiveDigest(t) != Some(c.digest) || !f.rejectLands ==> SameLive(t, u))
  }

  function Rejected(t: Store, c: Candidate, f: Faults): Store {
    if f.rejectLands then Apply(t, Record(t, c, REJECTED, f.reason)) else t
  }

  function Counted(t: Store, u: Store): Store {
    u.(counter := Some(NextCounter(t)))
  }

  lemma RejectFrame(t: Store, c: Candidate, f: Faults)
    ensures Framed(t, c, f, Rejected(t, c, f)) && Rejected(t, c, f).counter == t.counter
  {
  }

  lemma CounterFrame(t: Store, c: Candidate, f: Faults, u: Store)
    requires Framed(t, c, f, u)
    ensures Framed(t, c, f, Counted(t, u)) && CounterMark(Counted(t, u)) == NextCounter(t)
  {
  }

  lemma AtMostTwo(t: Store, a: seq<Write>, b: seq<Write>, j: nat)
    requires |a| <= 1 && |b| <= 1 && j <= |a + b|
    ensures ApplyAll(t, a) == if a == [] then t else Apply(t, a[0])
    ensures ApplyAll(t, (a + b)[..j]) ==
            if j == 0 then t else if j <= |a| then Apply(t, a[0]) else Apply(ApplyAll(t, a), b[0])
  {
    if |a| == 1 {
      ApplyOne(t, a[0]);
      assert a == [a[0]];
    }
    if j > |a| {
      PrefixOfTail(t, a, b, j);
      ApplyOne(ApplyAll(t, a), b[0]);
      assert b[..j - |a|] == [b[0]];
    } else if j > 0 {
      assert (a + b)[..j] == a;
    }
  }

  /** After some of the handler's writes: none, the REJECTED record, or then the counter. */
  lemma TailForm(t: Store, c: Candidate, f: Faults, j: nat)
    requires j <= |ExceptionWrites(t, c, f)|
    ensures var u := ApplyAll(t, ExceptionWrites(t, c, f)[..j]);
            u == t || u == Rejected(t, c, f) || u == Counted(t, Rejected(t, c, f))
    ensures ActiveDigest(t) != Some(c.digest) && f.counterLands && j == |ExceptionWrites(t, c, f)| ==>
              ApplyAll(t, ExceptionWrites(t, c, f)[..j]) == Counted(t, Rejected(t, c, f))
  {
    var reject := if f.rejectLands then [Record(t, c, REJECTED, f.reason)] else [];
    var count := if ActiveDigest(t) == Some(c.digest) then [] else CounterWrites(t, f);
    assert ExceptionWrites(t, c, f) == reject + count;
    AtMostTwo(t, reject, count, j);
  }

  lemma TailFrame(t: Store, c: Candidate, f: Faults, j: nat)
    requires j <= |ExceptionWrites(t, c, f)|
    ensures Framed(t, c, f, ApplyAll(t, ExceptionWrites(t, c, f)[..j]))
    ensures ActiveDigest(t) != Some(c.digest) && f.counterLands ==>
              CounterMark(ApplyAll(t, ExceptionWrites(t, c, f))) == NextCounter(t)
  {
    var h := ExceptionWrites(t, c, f);
    assert h[..|h|] == h;
    RejectFrame(t, c, f);
    CounterFrame(t, c, f, Rejected(t, c, f));
    TailForm(t, c, f, j);
    TailForm(t, c, f, |h|);
  }

  lemma HandlerKeepsInv(t: Store, c: Candidate, f: Faults, j: nat)
    requires Inv(t) && j <= |ExceptionWrites(t, c, f)|
    requires ActiveDigest(t) != Some(c.digest) || !f.rejectLands
    ensures Inv(ApplyAll(t, ExceptionWrites(t, c, f)[..j]))
  {
    TailFrame(t, c, f, j);
    SameLiveServable(t, ApplyAll(t, ExceptionWrites(t, c, f)[..j]));
  }

  /** A bad attempt shows: after `k` of its writes the release in service can no longer be served. */
  lemma BrokenPrefix(s: Store, r: Request, f: Faults) returns (k: nat)
    requires Inv(s) && FaultsOk(f) && BreaksLive(s, r, f)
    ensures k <= |Prepare(s, r, f).writes| && !Servable(ApplyAll(s, Prepare(s, r, f).writes[..k]))
  {
    if Some(r.candidate.digest) == ActiveDigest(s) && Reached(s, r.candidate, f) >= 2 {
      k := StagedOverLive(s, r, f);
    } else {
      k := RejectedLive(s, r, f);
    }
  }

  lemma StagedOverLive(s: Store, r: Request, f: Faults) returns (k: nat)
    requires Inv(s) && FaultsOk(f)
    requires Some(r.candidate.digest) == ActiveDigest(s) && Reached(s, r.candidate, f) >= 2
    ensures k <= |Prepare(s, r, f).writes| && !Servable(ApplyAll(s, Prepare(s, r, f).writes[..k]))
  {
    k := 2;
    PrefixForm(s, r, f, 2);
  }

  lemma RejectedLive(s: Store, r: Request, f: Faults) returns (k: nat)
    requires Inv(s) && FaultsOk(f) && BreaksLive(s, r, f)
    requires Some(r.candidate.digest) != ActiveDigest(s) || Reached(s, r.candidate, f) < 2
    ensures k <= |Prepare(s, r, f).writes| && !Servable(ApplyAll(s, Prepare(s, r, f).writes[..k]))
  {
    var n := WritesIn(Reached(s, r.candidate, f));
    k := n + 1;
    PrefixForm(s, r, f, k);
    var t, h := After(s, r, n), Tail(s, r, f).writes;
    assert h[..1] == [Record(t, r.candidate, REJECTED, f.reason)];
    ApplyOne(t, h[0]);
    RejectedNotServable(t, r.candidate, f.reason);
  }

  /** Exactly when an attempt leaves every durable state servable: it works on another digest than the
      live one (or has not yet touched it), and no exception follows the rename of the pointer. */
  lemma AttemptServableIff(s: Store, r: Request, event: string, site: string, f: Faults)
    requires Inv(s) && Admissible(r) && FaultsOk(f) && Decide(s, r, event, site) == Proceed
    ensures (forall k :: 0 <= k <= |Prepare(s, r, f).writes| ==> Servable(ApplyAll(s, Prepare(s, r, f).writes[..k])))
       <==> !BreaksLive(s, r, f)
  {
    if BreaksLive(s, r, f) {
      var k := BrokenPrefix(s, r, f);
    } else {
      forall k | 0 <= k <= |Prepare(s, r, f).writes| ensures Servable(ApplyAll(s, Prepare(s, r, f).writes[..k])) {
        PrepareKeepsInv(s, r, event, site, f, k);
      }
    }
  }

  /** What a caller can check before the call: an attempt keeps every durable state servable, wherever it
      is interrupted short of an exception after the rename of the pointer, if and only if the candidate
      carries another digest than the live release. */
  lemma OntoAnotherDigestIff(s: Store, r: Request, event: string, site: string)
    requires Inv(s) && Admissible(r) && Decide(s, r, event, site) == Proceed
    ensures (forall f, k :: FaultsOk(f) && !(f.steps == STEPS && f.raised) && 0 <= k <= |Prepare(s, r, f).writes| ==>
               Servable(ApplyAll(s, Prepare(s, r, f).writes[..k])))
       <==> Some(r.candidate.digest) != ActiveDigest(s)
  {
    if Some(r.candidate.digest) != ActiveDigest(s) {
      forall f, k | FaultsOk(f) && !(f.steps == STEPS && f.raised) && 0 <= k <= |Prepare(s, r, f).writes|
        ensures Servable(ApplyAll(s, Prepare(s, r, f).writes[..k]))
      {
        AttemptServableIff(s, r, event, site, f);
      }
    } else {
      var f := Faults(2, true, false, false, false, false);
      AttemptServableIff(s, r, event, site, f);
      assert BreaksLive(s, r, f);
    }
  }
}
