/** What is served, on the files of the node: pointer, state and package, and nothing else decides. */
module ServingMeaning {
  import opened Prelude
  import opened Identifiers
  import opened ActiveRelease

  /** The pointer of a serving node. */
  ghost predicate Coherent(p: Pointer) {
    && WellFormedDigest(p.activeDigest)
    && 1 <= p.activeSequence <= p.sequenceFloor && p.deviceCounter >= 1
    && (forall m :: m in p.usedAuthorizations ==> |m| > 0)
    && (forall i, j :: 0 <= i < j < |p.usedAuthorizations| ==> p.usedAuthorizations[i] != p.usedAuthorizations[j])
    && match p.mode
       case Production => p.activeSequence == p.sequenceFloor && p.policy == None
       case Recovery => p.usedAuthorizations != [] && (p.policy.Some? ==> Restricts(p.policy.value, p.usedAuthorizations))
  }

  /** A serving policy belongs to an exceptional authorization that was used up, and names no class twice. */
  ghost predicate Restricts(q: ServingPolicy, used: seq<string>) {
    && CanonicalUuid(q.authorizationId) && WellFormedNonce(q.nonce)
    && "authorization:" + q.authorizationId in used && "nonce:" + q.nonce in used
    && forall i, j :: 0 <= i < j < |q.blocked| ==> q.blocked[i] != q.blocked[j]
  }

  /** The release's record: of this digest and sequence, ready and then put in service, and not rejected. */
  predicate PutInService(st: ReleaseState, p: Pointer) {
    var stage := match p.mode case Production => ACTIVE case Recovery => RECOVERY;
    && st.digest == p.activeDigest && st.sequence == p.activeSequence && st.stage == stage && !st.hasReason
    && |st.history| >= 2 && st.history[|st.history| - 1] == stage && st.history[|st.history| - 2] == READY
  }

  lemma PointerOkIff(p: Pointer)
    ensures PointerOk(p) <==> Coherent(p)
  {
    if p.policy.Some? {
      assert PolicyOk(p.policy.value, p) <==> p.mode == Recovery && Restricts(p.policy.value, p.usedAuthorizations);
    }
  }

  lemma StateOkIff(st: ReleaseState, p: Pointer)
    ensures StateOk(st, p) <==> PutInService(st, p)
  {
    if |st.history| >= 2 {
      var n := |st.history|;
      assert st.history[n - 2..] == [st.history[n - 2], st.history[n - 1]];
    }
  }

  /** Something is served if and only if the pointer is coherent, the release it names was put in service, and its
      package is the one of that digest and passes validation. */
  lemma ServedIff(s: Store)
    ensures Resolve(s).Some? <==>
            && s.pointer.Some? && Coherent(s.pointer.value)
            && var p := s.pointer.value;
               && p.activeDigest in s.states && PutInService(s.states[p.activeDigest], p)
               && p.activeDigest in s.packages && s.packages[p.activeDigest].manifestDigest == p.activeDigest
               && s.packages[p.activeDigest].valid
    ensures Resolve(s).Some? ==>
              var p, v := s.pointer.value, Resolve(s).value;
              && v.digest == p.activeDigest && v.sequence == p.activeSequence && v.floor == p.sequenceFloor && v.mode == p.mode
              && v.stage == s.states[p.activeDigest].stage && v.deviceCounter == p.deviceCounter
              && v.blocked == (if p.policy.Some? then p.policy.value.blocked else [])
              && v.recoveryAuthorization == (if p.policy.Some? then Some(p.policy.value.authorizationId) else None)
  {
    if s.pointer.Some? {
      PointerOkIff(s.pointer.value);
      if s.pointer.value.activeDigest in s.states {
        StateOkIff(s.states[s.pointer.value.activeDigest], s.pointer.value);
      }
    }
  }
}
