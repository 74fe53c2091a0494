/** When two documents contradict each other and which of them wins, on their own fields. */
module ReviewMeaning {
  import opened Prelude
  import opened Safety
  import opened Validity
  import opened Sorting
  import opened Review

  predicate Meet(a: set<string>, b: set<string>) {
    exists x :: x in a && x in b
  }

  predicate During(d: Document, t: int) {
    d.validity.from <= t && (d.validity.until == None || t < d.validity.until.value)
  }

  ghost predicate AtOneTime(l: Document, r: Document) {
    exists t :: During(l, t) && During(r, t)
  }

  predicate Asserts(d: Document, fact: string, value: string) {
    (fact, value) in d.facts
  }

  ghost predicate AssertsAny(d: Document, fact: string) {
    exists value :: (fact, value) in d.facts
  }

  /** One asserts a value of the fact that the other, which speaks of the fact, does not. */
  ghost predicate DifferOn(l: Document, r: Document, fact: string) {
    && AssertsAny(l, fact) && AssertsAny(r, fact)
    && exists value :: Asserts(l, fact, value) != Asserts(r, fact, value)
  }

  /** Of one event, for a common place, language and audience, at a common time, they differ on the fact. */
  ghost predicate Contradict(l: Document, r: Document, fact: string) {
    && l.eventId == r.eventId && Meet(l.geographies, r.geographies) && Meet(l.languages, r.languages)
    && Meet(l.audiences, r.audiences) && AtOneTime(l, r) && DifferOn(l, r, fact)
  }

  /** `w` outranks `o` by enough and says that it replaces it. */
  predicate Prevails(w: Document, o: Document, p: Policy) {
    && p.allowAuthority && w.authorityRank > o.authorityRank && w.authorityRank - o.authorityRank >= p.minimumGap
    && o.key in w.supersedes
  }

  lemma MeetIff(a: set<string>, b: set<string>)
    ensures a * b != {} <==> Meet(a, b)
  {
    if Meet(a, b) {
      var x :| x in a && x in b;
      assert x in a * b;
    }
  }

  lemma ScopesOverlapIff(l: Document, r: Document)
    requires DocumentOk(l) && DocumentOk(r)
    ensures ScopesOverlap(l, r) <==>
            && l.eventId == r.eventId && Meet(l.geographies, r.geographies) && Meet(l.languages, r.languages)
            && Meet(l.audiences, r.audiences) && AtOneTime(l, r)
  {
    MeetIff(l.geographies, r.geographies);
    MeetIff(l.languages, r.languages);
    MeetIff(l.audiences, r.audiences);
    OverlapIsCommonInstant(l.validity, r.validity);
    forall t ensures (During(l, t) <==> ActiveAt(l.validity, t)) && (During(r, t) <==> ActiveAt(r.validity, t)) {}
  }

  lemma ValuesAre(d: Document, fact: string, value: string)
    ensures value in Values(d, fact) <==> Asserts(d, fact, value)
    ensures fact in FactIds(d) <==> AssertsAny(d, fact)
  {
    if value in Values(d, fact) {
      var f :| f in d.facts && f.0 == fact && f.1 == value;
      assert f == (fact, value);
    }
    if fact in FactIds(d) {
      var f :| f in d.facts && f.0 == fact;
      assert f == (fact, f.1);
    }
    if v :| (fact, v) in d.facts {
      assert (fact, v).0 in FactIds(d);
    }
    if Asserts(d, fact, value) {
      assert (fact, value).1 in Values(d, fact);
    }
  }

  lemma DifferIff(l: Document, r: Document, fact: string)
    ensures fact in FactIds(l) && fact in FactIds(r) && Values(l, fact) != Values(r, fact) <==> DifferOn(l, r, fact)
  {
    forall value
      ensures value in Values(l, fact) <==> Asserts(l, fact, value)
      ensures value in Values(r, fact) <==> Asserts(r, fact, value)
      ensures fact in FactIds(l) <==> AssertsAny(l, fact)
      ensures fact in FactIds(r) <==> AssertsAny(r, fact)
    {
      ValuesAre(l, fact, value);
      ValuesAre(r, fact, value);
    }
    ValuesAre(l, fact, "");
    ValuesAre(r, fact, "");
    if Values(l, fact) != Values(r, fact) {
      var value :| (value in Values(l, fact)) != (value in Values(r, fact));
      assert Asserts(l, fact, value) != Asserts(r, fact, value);
    }
  }

  /** The scan finds a clash on a fact exactly when the documents contradict each other on it. */
  lemma ClashIff(l: Document, r: Document, fact: string)
    requires DocumentOk(l) && DocumentOk(r)
    ensures fact in Clash(l, r) <==> Contradict(l, r, fact)
  {
    ScopesOverlapIff(l, r);
    DifferIff(l, r, fact);
  }

  /** A document wins exactly when policy allows it, its authority is higher by the gap, and it names the other as
      superseded; the lower one never wins. */
  lemma WinnerIff(l: Document, r: Document, p: Policy, key: Reference)
    ensures Winner(l, r, p) == Some(key) <==> (Prevails(l, r, p) && key == l.key) || (Prevails(r, l, p) && key == r.key)
    ensures !(Prevails(l, r, p) && Prevails(r, l, p))
  {
  }

  /** What is reported about a pair: a contradiction, both IDs in order, and who won, if anyone. */
  lemma ConflictMeans(l: Document, r: Document, p: Policy, c: FactConflict)
    requires DocumentOk(l) && DocumentOk(r)
    ensures c in PairConflicts(l, r, p) <==>
            && Contradict(l, r, c.fact)
            && StringLe(c.documents.0, c.documents.1) && {c.documents.0, c.documents.1} == {l.key.id, r.key.id}
            && (c.contested <==> !Prevails(l, r, p) && !Prevails(r, l, p))
            && c.winner == (if Prevails(l, r, p) then Some(l.key.id) else if Prevails(r, l, p) then Some(r.key.id) else None)
  {
    ClashIff(l, r, c.fact);
    WinnerIff(l, r, p, l.key);
    WinnerIff(l, r, p, r.key);
    StringLeTotal(l.key.id, r.key.id);
    OrderedPair(c.documents, l.key.id, r.key.id);
  }

  lemma OrderedPair(q: (string, string), a: string, b: string)
    ensures StringLe(q.0, q.1) && {q.0, q.1} == {a, b} <==> q == SortedPair(a, b)
  {
    StringLeTotal(a, b);
    if StringLe(q.0, q.1) && {q.0, q.1} == {a, b} {
      assert q.0 in {a, b} && q.1 in {a, b} && a in {q.0, q.1} && b in {q.0, q.1};
    }
  }

  /** The documents come out once each, by ID, then revision, then digest. */
  lemma ReviewedInOrder(documents: seq<Document>)
    ensures Permutation(Ordered(documents), documents)
    ensures forall i, j :: 0 <= i < j < |Ordered(documents)| ==> KeyNotAfter(Ordered(documents)[i].key, Ordered(documents)[j].key)
  {
    OrderedKeepsDocuments(documents);
    ByKeyIsPreorder();
    SortSorts(documents, ByKey);
    forall i, j | 0 <= i < j < |Ordered(documents)| ensures KeyNotAfter(Ordered(documents)[i].key, Ordered(documents)[j].key) {
      assert ByKey(Ordered(documents)[i], Ordered(documents)[j]);
    }
  }

  predicate KeyNotAfter(a: Reference, b: Reference) {
    if a.id != b.id then StringLe(a.id, b.id) else a.revision < b.revision || (a.revision == b.revision && StringLe(a.digest, b.digest))
  }

  /** A document ends contested, its approval withdrawn, exactly when one that has its key is contradicted by one of
      the others and neither of the two prevails. */
  lemma ContestedIff(ds: seq<Document>, k: nat, p: Policy)
    requires k < |ds| && forall d :: d in ds ==> DocumentOk(d)
    ensures LeftContested(ds, k, p) <==>
            exists d, e, fact :: d in ds && e in ds && d.key == ds[k].key && Contradict(d, e, fact)
                                 && !Prevails(d, e, p) && !Prevails(e, d, p)
  {
    forall d, e | d in ds && e in ds
      ensures Winner(d, e, p).None? <==> !Prevails(d, e, p) && !Prevails(e, d, p)
      ensures Clash(d, e) != {} <==> exists fact :: Contradict(d, e, fact)
    {
      WinnerIff(d, e, p, d.key);
      WinnerIff(d, e, p, e.key);
      forall fact ensures fact in Clash(d, e) <==> Contradict(d, e, fact) {
        ClashIff(d, e, fact);
      }
      if fact :| fact in Clash(d, e) {
        assert Contradict(d, e, fact);
      }
    }
    if d, e :| SameKey(ds, k, d) && e in ds && Clash(d, e) != {} && Winner(d, e, p).None? {
      var fact :| Contradict(d, e, fact);
    }
    if d, e, fact :| d in ds && e in ds && d.key == ds[k].key && Contradict(d, e, fact)
                     && !Prevails(d, e, p) && !Prevails(e, d, p) {
      assert SameKey(ds, k, d);
    }
  }

  // ---------------------------------------------------------------- reviews of critical documents

  /** The attestation is named by the document and approves exactly it. */
  predicate ApprovesIt(d: Document, a: Attestation) {
    a.id in d.reviews && a.approves && a.ofDocument && a.subjectId == d.key.id && a.subjectDigest == d.key.digest
  }

  function ApprovalSet(d: Document, ats: seq<Attestation>): set<Attestation> {
    set a | a in ats && ApprovesIt(d, a)
  }

  /** Every review the document names is there and about it; approvals are as many as policy and each of them ask for,
      hold every required role, and are of different roles, people and groups; none is named twice. */
  ghost predicate Reviewed(d: Document, ats: seq<Attestation>, p: Policy) {
    var approvals := ApprovalSet(d, ats);
    && (forall id :: id in d.reviews ==>
          exists a :: a in ats && a.id == id && a.ofDocument && a.subjectId == d.key.id && a.subjectDigest == d.key.digest)
    && |approvals| >= p.minimumApprovals && (forall a :: a in approvals ==> |approvals| >= a.approvalsRequired)
    && (forall role :: role in p.requiredRoles ==> exists a :: a in approvals && a.role == role)
    && (forall a, b :: a in approvals && b in approvals && a != b ==>
          a.role != b.role && a.identity != b.identity && a.group != b.group)
    && Distinct(Approvals(d, ats))
  }

  lemma {:induction false} FindToIs(ats: seq<Attestation>, a: Attestation, n: nat)
    requires n <= |ats| && DistinctBy(ats, (x: Attestation) => x.id) && a in ats[..n]
    ensures FindTo(ats, a.id, n) == Some(a)
  {
    var key := (x: Attestation) => x.id;
    if ats[n - 1] != a {
      assert a in ats[..n - 1];
      var i :| 0 <= i < n - 1 && ats[i] == a;
      assert key(ats[i]) != key(ats[n - 1]);
      FindToIs(ats, a, n - 1);
    }
  }

  lemma FindIs(ats: seq<Attestation>, a: Attestation)
    requires DistinctBy(ats, (x: Attestation) => x.id) && a in ats
    ensures Find(ats, a.id) == Some(a)
  {
    assert ats[..|ats|] == ats;
    FindToIs(ats, a, |ats|);
  }

  lemma ApprovalsAre(d: Document, ats: seq<Attestation>, a: Attestation)
    requires DistinctBy(ats, (x: Attestation) => x.id)
    ensures a in Approvals(d, ats) <==> a in ApprovalSet(d, ats)
  {
    FlatMapMembers(d.reviews, ApprovalNamed(d, ats), a);
    if a in ats {
      FindIs(ats, a);
    }
    if a in ApprovalSet(d, ats) {
      assert a in ApprovalNamed(d, ats)(a.id);
    }
    if a in Approvals(d, ats) {
      var id :| id in d.reviews && a in ApprovalNamed(d, ats)(id);
      assert Find(ats, id) == Some(a);
    }
  }

  lemma {:induction false} DistinctSize<T>(s: seq<T>)
    requires Distinct(s)
    ensures |set x | x in s| == |s|
  {
    if s != [] {
      var n := |s| - 1;
      DistinctSize(s[..n]);
      assert s == s[..n] + [s[n]];
      assert (set x | x in s) == (set x | x in s[..n]) + {s[n]};
      assert s[n] !in s[..n];
    }
  }

  lemma DistinctByIff<T(!new), K>(s: seq<T>, key: T -> K)
    ensures DistinctBy(s, key) <==> Distinct(s) && forall a, b :: a in s && b in s && a != b ==> key(a) != key(b)
  {
    if DistinctBy(s, key) {
      forall a, b | a in s && b in s && a != b ensures key(a) != key(b) {
        var i :| 0 <= i < |s| && s[i] == a;
        var j :| 0 <= j < |s| && s[j] == b;
        assert if i < j then key(s[i]) != key(s[j]) else key(s[j]) != key(s[i]);
      }
    }
  }

  lemma IndependentIff(approvals: seq<Attestation>)
    ensures DistinctBy(approvals, (a: Attestation) => a.role) && DistinctBy(approvals, (a: Attestation) => a.identity)
            && DistinctBy(approvals, (a: Attestation) => a.group)
       <==> Distinct(approvals) && forall a, b :: a in approvals && b in approvals && a != b ==>
              a.role != b.role && a.identity != b.identity && a.group != b.group
  {
    DistinctByIff(approvals, (a: Attestation) => a.role);
    DistinctByIff(approvals, (a: Attestation) => a.identity);
    DistinctByIff(approvals, (a: Attestation) => a.group);
  }

  lemma ApprovalsOkIff(approvals: seq<Attestation>, named: set<Attestation>, p: Policy)
    requires forall a :: a in approvals <==> a in named
    ensures ApprovalsOk(approvals, p) <==>
            && Distinct(approvals) && |named| >= p.minimumApprovals && (forall a :: a in named ==> |named| >= a.approvalsRequired)
            && (forall role :: role in p.requiredRoles ==> exists a :: a in named && a.role == role)
            && forall a, b :: a in named && b in named && a != b ==>
                 a.role != b.role && a.identity != b.identity && a.group != b.group
  {
    IndependentIff(approvals);
    if Distinct(approvals) {
      DistinctSize(approvals);
      assert (set a | a in approvals) == named;
    }
  }

  lemma NamedIff(d: Document, ats: seq<Attestation>, id: string)
    requires DistinctBy(ats, (x: Attestation) => x.id)
    ensures ReviewNamed(d, ats, id) <==>
            exists a :: a in ats && a.id == id && a.ofDocument && a.subjectId == d.key.id && a.subjectDigest == d.key.digest
  {
    if a :| a in ats && a.id == id && a.ofDocument && a.subjectId == d.key.id && a.subjectDigest == d.key.digest {
      FindIs(ats, a);
    }
  }

  /** A critical document passes exactly when it is reviewed by enough independent approvals. */
  lemma SeparatelyReviewedIff(d: Document, ats: seq<Attestation>, p: Policy)
    requires DistinctBy(ats, (x: Attestation) => x.id)
    ensures SeparatelyReviewed(d, ats, p) <==> Reviewed(d, ats, p)
  {
    forall a ensures a in Approvals(d, ats) <==> a in ApprovalSet(d, ats) {
      ApprovalsAre(d, ats, a);
    }
    forall id ensures ReviewNamed(d, ats, id) <==>
                      exists a :: a in ats && a.id == id && a.ofDocument && a.subjectId == d.key.id && a.subjectDigest == d.key.digest {
      NamedIff(d, ats, id);
    }
    ApprovalsOkIff(Approvals(d, ats), ApprovalSet(d, ats), p);
  }

  /** The scan runs exactly under a policy with minima of at least one, on valid documents, with sound attestations of
      different IDs, when every critical document is reviewed. */
  lemma ReviewableIff(documents: seq<Document>, ats: seq<Attestation>, p: Policy)
    ensures Reviewable(documents, ats, p) <==>
            && p.minimumGap > 0 && p.minimumApprovals > 0
            && (forall i :: 0 <= i < |documents| ==>
                  && (documents[i].validity.until.Some? ==> documents[i].validity.from < documents[i].validity.until.value)
                  && !(documents[i].approval == Approved && documents[i].state == Contested))
            && (forall i :: 0 <= i < |ats| ==> ats[i].sound)
            && DistinctBy(ats, (x: Attestation) => x.id) && Distinct(p.requiredRoles)
            && forall d :: d in documents && d.safety == Critical ==> Reviewed(d, ats, p)
  {
    assert (forall d :: d in documents ==> DocumentOk(d)) <==> forall i :: 0 <= i < |documents| ==> DocumentOk(documents[i]);
    assert (forall a :: a in ats ==> a.sound) <==> forall i :: 0 <= i < |ats| ==> ats[i].sound;
    if DistinctBy(ats, (x: Attestation) => x.id) {
      forall d: Document ensures SeparatelyReviewed(d, ats, p) <==> Reviewed(d, ats, p) {
        SeparatelyReviewedIff(d, ats, p);
      }
    }
  }
}
