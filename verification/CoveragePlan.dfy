/** What a coverage report says, field by field, of mission, registry, classifications and documents themselves. */
module CoveragePlan {
  import opened Prelude
  import opened Crypto
  import opened Sorting
  import opened Coverage
  import opened CoverageReports
  import opened CoverageMeaning

  /** A requirement, a category, a source or a classification of which there may be one comes at both places. */
  predicate Repeats(m: Mission, g: Registry, cs: seq<Classification>, i: nat, j: nat) {
    || (i < j < |m.requirements| && (m.requirements[i].id == m.requirements[j].id || m.requirements[i].category == m.requirements[j].category))
    || (i < j < |g.sources| && g.sources[i].id == g.sources[j].id)
    || (i < j < |cs| && cs[i].id == cs[j].id)
  }

  /** Inputs are refused exactly when mission and registry are of different events, a requirement, category, source or
      classification comes twice, or a classification or document is of another mission or event. */
  lemma PlannableIff(m: Mission, g: Registry, cs: seq<Classification>, docs: seq<Document>)
    ensures !Plannable(m, g, cs, docs) <==>
            || m.eventId != g.eventId || (exists c :: c in cs && c.missionId != m.id) || (exists d :: d in docs && d.eventId != m.eventId)
            || exists i, j :: Repeats(m, g, cs, i, j)
  {
    if !MissionOk(m) {
      var i, j :| 0 <= i < j < |m.requirements| &&
                  (m.requirements[i].id == m.requirements[j].id || m.requirements[i].category == m.requirements[j].category);
      assert Repeats(m, g, cs, i, j);
    }
    if !RegistryOk(g) {
      var i, j :| 0 <= i < j < |g.sources| && g.sources[i].id == g.sources[j].id;
      assert Repeats(m, g, cs, i, j);
    }
    if !DistinctBy(cs, (c: Classification) => c.id) {
      var i, j :| 0 <= i < j < |cs| && cs[i].id == cs[j].id;
      assert Repeats(m, g, cs, i, j);
    }
  }

  // ---------------------------------------------------------------- one requirement

  lemma IdsAre(cs: seq<Classification>, id: string)
    ensures Sorted(Ids(cs), StringLe) && (id in Ids(cs) <==> exists c :: c in cs && c.id == id)
  {
    var all := Map(cs, (c: Classification) => c.id);
    StringLeIsPreorder();
    SortSorts(all, StringLe);
    PermutationMembers(Ids(cs), all, id);
    if c :| c in cs && c.id == id {
      var i :| 0 <= i < |cs| && cs[i] == c;
      assert all[i] == id;
    }
    if id in all {
      var i :| 0 <= i < |all| && all[i] == id;
      assert cs[i] in cs;
    }
  }

  /** The report on a requirement repeats it, and lists the classifications of its category and the trusted ones, in
      order of IDs. */
  lemma ListsClassifications(m: Mission, g: Registry, now: int, cs: seq<Classification>, docs: seq<Document>, r: Requirement,
                             id: string)
    requires RegistryOk(g)
    ensures var q := ReportFor(m, Index(g.sources), now, cs, docs, r);
            && q.id == r.id && q.category == r.category && q.safety == r.safety
            && Sorted(q.classificationIds, StringLe) && Sorted(q.qualifyingIds, StringLe)
            && (id in q.classificationIds <==> exists c :: c in cs && r.category in c.categories && c.id == id)
            && (id in q.qualifyingIds <==> exists c :: c in cs && Trusted(m, g.sources, now, r, c) && c.id == id)
            && q.qualifyingSources == TrustedSources(m, g.sources, now, r, cs)
  {
    WhereMembers(cs, (c: Classification) => RelatedTo(r, c));
    TrustedMembers(m, g, now, r, cs);
    IdsAre(Related(r, cs), id);
    IdsAre(Qualifying(m, Index(g.sources), now, r, cs), id);
    SourcesAre(m, g, now, r, cs);
  }

  lemma TrustedMembers(m: Mission, g: Registry, now: int, r: Requirement, cs: seq<Classification>)
    requires RegistryOk(g)
    ensures forall c :: c in Qualifying(m, Index(g.sources), now, r, cs) <==> c in cs && Trusted(m, g.sources, now, r, c)
  {
    QualifyingMembers(m, Index(g.sources), now, r, cs);
    forall c ensures Qualifies(m, Index(g.sources), now, r, c) <==> Trusted(m, g.sources, now, r, c) {
      QualifiesIff(m, g, now, r, c);
    }
  }

  /** A gap, by what it says. */
  ghost predicate Missing(m: Mission, g: Registry, now: int, r: Requirement, cs: seq<Classification>, gap: Gap) {
    match gap
    case MissingIntent(message) =>
      exists i :: i in r.intents && message == "no classification supports intent: " + i
                  && forall c :: c in cs && i in c.intents ==> !Trusted(m, g.sources, now, r, c)
    case InsufficientSources(found, required) =>
      found == |TrustedSources(m, g.sources, now, r, cs)| && required == r.minimumSources && found < required
    case NoQualifyingClassification => forall c :: c in cs ==> !Trusted(m, g.sources, now, r, c)
  }

  lemma GapListed(r: Requirement, qs: seq<Classification>, gap: Gap)
    ensures gap in GapsOf(r, qs) <==>
            match gap
            case MissingIntent(message) =>
              exists i :: i in r.intents && message == "no classification supports intent: " + i && i !in CoveredIntents(qs)
            case InsufficientSources(found, required) =>
              found == |SourcesOf(qs)| && required == r.minimumSources && found < required
            case NoQualifyingClassification => qs == []
  {
  }

  lemma IntentCovered(m: Mission, g: Registry, now: int, r: Requirement, cs: seq<Classification>, i: string)
    requires RegistryOk(g)
    ensures i in CoveredIntents(Qualifying(m, Index(g.sources), now, r, cs)) <==>
            exists c :: c in cs && i in c.intents && Trusted(m, g.sources, now, r, c)
  {
    TrustedMembers(m, g, now, r, cs);
    var qs := Qualifying(m, Index(g.sources), now, r, cs);
    if c :| c in cs && i in c.intents && Trusted(m, g.sources, now, r, c) {
      assert c in qs;
    }
  }

  lemma GapMeans(m: Mission, g: Registry, now: int, cs: seq<Classification>, r: Requirement, gap: Gap)
    requires RegistryOk(g)
    ensures gap in GapsOf(r, Qualifying(m, Index(g.sources), now, r, cs)) <==> Missing(m, g, now, r, cs, gap)
  {
    var qs := Qualifying(m, Index(g.sources), now, r, cs);
    GapListed(r, qs, gap);
    match gap {
      case MissingIntent(message) =>
        forall i ensures i in CoveredIntents(qs) <==> exists c :: c in cs && i in c.intents && Trusted(m, g.sources, now, r, c) {
          IntentCovered(m, g, now, r, cs, i);
        }
      case InsufficientSources(found, required) => SourcesAre(m, g, now, r, cs);
      case NoQualifyingClassification => NoneTrusted(m, g, now, r, cs);
    }
  }

  /** The gaps are exactly what is missing, and what is advised follows the status. */
  lemma GapsAre(m: Mission, g: Registry, now: int, cs: seq<Classification>, docs: seq<Document>, r: Requirement, gap: Gap)
    requires RegistryOk(g)
    ensures var q := ReportFor(m, Index(g.sources), now, cs, docs, r);
            && (gap in q.gaps <==> Missing(m, g, now, r, cs, gap))
            && (HUMAN_CONFLICT_REVIEW in q.actions <==> q.status == CONFLICTED)
            && (SOURCE_OR_CLASSIFICATION_WORK in q.actions <==> q.status == GAP)
  {
    GapMeans(m, g, now, cs, r, gap);
  }

  lemma NoneTrusted(m: Mission, g: Registry, now: int, r: Requirement, cs: seq<Classification>)
    requires RegistryOk(g)
    ensures Qualifying(m, Index(g.sources), now, r, cs) == [] <==> forall c :: c in cs ==> !Trusted(m, g.sources, now, r, c)
  {
    TrustedMembers(m, g, now, r, cs);
    var qs := Qualifying(m, Index(g.sources), now, r, cs);
    assert qs != [] ==> qs[0] in qs;
  }

  lemma CollisionIs(ts: set<Triple>, fact: string)
    ensures fact in Collisions(ts) <==> Collides(ts, fact)
    ensures fact in Collisions(ts) ==>
              && Collisions(ts)[fact].documents == (set t | t in ts && t.fact == fact :: t.document)
              && Collisions(ts)[fact].values == set t | t in ts && t.fact == fact :: Sha256(t.value)
  {
  }

  predicate Given(ts: set<Triple>, fact: string, value: string) {
    exists t :: t in ts && t.fact == fact && t.value == value
  }

  lemma CollidesIff(ts: set<Triple>, fact: string)
    ensures Collides(ts, fact) <==> exists v, w :: v != w && Given(ts, fact, v) && Given(ts, fact, w)
  {
    if t, u :| t in ts && u in ts && t.fact == fact && u.fact == fact && t.value != u.value {
      assert Given(ts, fact, t.value) && Given(ts, fact, u.value);
    }
  }

  lemma ValuesAre(ts: set<Triple>, fact: string)
    ensures forall v :: Sha256(v) in (set t | t in ts && t.fact == fact :: Sha256(t.value)) <==> Given(ts, fact, v)
  {
  }

  /** The conflicts are the contests declared by documents of the category, in order of documents, and the facts to
      which such documents give different values, with those values' digests. */
  lemma ConflictsAre(m: Mission, g: Registry, now: int, cs: seq<Classification>, docs: seq<Document>, r: Requirement,
                     x: Declared, fact: string)
    ensures var found := ReportFor(m, Index(g.sources), now, cs, docs, r).conflicts;
            && (x in found.declared <==>
                  exists d :: d in docs && Concerns(r, cs, d) && d.id == x.documentId && d.contested == Some(x.explanation))
            && Sorted(found.declared, ByDocument)
            && (fact in found.collisions <==>
                  exists v, w :: v != w && Asserts(r, cs, docs, fact, v) && Asserts(r, cs, docs, fact, w))
            && (fact in found.collisions ==>
                  forall v :: Sha256(v) in found.collisions[fact].values <==> Asserts(r, cs, docs, fact, v))
  {
    DeclaredAre(r, cs, docs, x);
    CollisionsAre(r, cs, docs, fact);
  }

  /** A collision names the documents that give the fact a value. */
  lemma CollisionDocuments(r: Requirement, cs: seq<Classification>, docs: seq<Document>, fact: string, id: string)
    requires fact in ConflictsOf(RelatedDocuments(r, cs, docs)).collisions
    ensures id in ConflictsOf(RelatedDocuments(r, cs, docs)).collisions[fact].documents <==>
            exists d, f :: d in docs && f in d.facts && Concerns(r, cs, d) && d.id == id && f.0 == fact
  {
    var ds := RelatedDocuments(r, cs, docs);
    CollisionIs(Triples(ds), fact);
    forall d ensures d in ds <==> d in docs && Concerns(r, cs, d) {
      RelatedIff(r, cs, docs, d);
    }
    if d, f :| d in docs && f in d.facts && Concerns(r, cs, d) && d.id == id && f.0 == fact {
      assert d in ds && Triple(f.0, f.1, d.id) in Triples(ds);
    }
  }

  lemma DeclaredAre(r: Requirement, cs: seq<Classification>, docs: seq<Document>, x: Declared)
    ensures var declared := ConflictsOf(RelatedDocuments(r, cs, docs)).declared;
            && Sorted(declared, ByDocument)
            && (x in declared <==>
                  exists d :: d in docs && Concerns(r, cs, d) && d.id == x.documentId && d.contested == Some(x.explanation))
  {
    var ds := RelatedDocuments(r, cs, docs);
    ByDocumentIsPreorder();
    SortSorts(FlatMap(ds, DeclaredIn()), ByDocument);
    PermutationMembers(ConflictsOf(ds).declared, FlatMap(ds, DeclaredIn()), x);
    FlatMapMembers(ds, DeclaredIn(), x);
    forall d ensures d in ds <==> d in docs && Concerns(r, cs, d) {
      RelatedIff(r, cs, docs, d);
    }
  }

  lemma CollisionsAre(r: Requirement, cs: seq<Classification>, docs: seq<Document>, fact: string)
    ensures var collisions := ConflictsOf(RelatedDocuments(r, cs, docs)).collisions;
            && (fact in collisions <==>
                  exists v, w :: v != w && Asserts(r, cs, docs, fact, v) && Asserts(r, cs, docs, fact, w))
            && (fact in collisions ==> forall v :: Sha256(v) in collisions[fact].values <==> Asserts(r, cs, docs, fact, v))
  {
    var ts := Triples(RelatedDocuments(r, cs, docs));
    CollisionIs(ts, fact);
    forall v ensures Given(ts, fact, v) <==> Asserts(r, cs, docs, fact, v) {
      AssertsIff(r, cs, docs, fact, v);
    }
    CollidesIff(ts, fact);
    ValuesAre(ts, fact);
  }

  // ---------------------------------------------------------------- the whole report

  /** The places of the requirements with a status. */
  function Having(rs: seq<RequirementReport>, s: Status): set<nat> {
    set i | 0 <= i < |rs| && rs[i].status == s
  }

  lemma HavingSnoc(rs: seq<RequirementReport>, q: RequirementReport, s: Status)
    ensures Having(rs + [q], s) == if q.status == s then Having(rs, s) + {|rs|} else Having(rs, s)
  {
    forall i: nat | i != |rs| ensures i in Having(rs + [q], s) <==> i in Having(rs, s) {
      assert i < |rs| ==> (rs + [q])[i] == rs[i];
    }
    assert (rs + [q])[|rs|] == q;
  }

  lemma {:induction false} CountIs(rs: seq<RequirementReport>, s: Status)
    ensures CountStatus(rs, s) == |Having(rs, s)|
  {
    if rs != [] {
      var n := |rs| - 1;
      CountIs(rs[..n], s);
      HavingSnoc(rs[..n], rs[n], s);
      assert rs == rs[..n] + [rs[n]];
    }
  }

  /** The plan names mission, event, registry and time, reports on each requirement, in order of IDs, counts the
      statuses and decides by the worst one. */
  lemma PlanOnFields(m: Mission, g: Registry, now: int, cs: seq<Classification>, docs: seq<Document>)
    ensures var plan := Plan(m, g, now, cs, docs);
            var b := plan.body;
            && plan.id == Sha256(b) && b.missionId == m.id && b.eventId == m.eventId && b.registryId == g.id && b.asOf == now
            && b.findings == Findings(Index(g.sources), now)
            && |b.requirements| == |m.requirements|
            && (forall i, j :: 0 <= i < j < |b.requirements| ==> StringLe(b.requirements[i].id, b.requirements[j].id))
            && b.summary.requirements == |m.requirements|
            && b.summary.covered == |Having(b.requirements, COVERED)| && b.summary.gaps == |Having(b.requirements, GAP)|
            && b.summary.conflicted == |Having(b.requirements, CONFLICTED)|
            && b.decision == (if Having(b.requirements, CONFLICTED) != {} then CONFLICTS
                              else if Having(b.requirements, GAP) != {} then GAPS else ALL_COVERED)
  {
    var rs := Reports(m, Index(g.sources), now, cs, docs);
    CountIs(rs, COVERED);
    CountIs(rs, GAP);
    CountIs(rs, CONFLICTED);
    HasStatusIff(rs, CONFLICTED);
    HasStatusIff(rs, GAP);
    ByRequirementIdIsPreorder();
    SortSorts(m.requirements, ByRequirementId);
    assert |Ordered(m)| == |multiset(Ordered(m))| == |multiset(m.requirements)|;
    ReportsInOrder(Ordered(m), Reporter(m, Index(g.sources), now, cs, docs));
  }

  lemma ReportsInOrder(order: seq<Requirement>, report: Requirement -> RequirementReport)
    requires Sorted(order, ByRequirementId) && forall r :: report(r).id == r.id
    ensures forall i, j :: 0 <= i < j < |order| ==> StringLe(Map(order, report)[i].id, Map(order, report)[j].id)
  {
    forall i, j | 0 <= i < j < |order| ensures StringLe(Map(order, report)[i].id, Map(order, report)[j].id) {
      assert ByRequirementId(order[i], order[j]);
    }
  }

  lemma HasStatusIff(rs: seq<RequirementReport>, s: Status)
    ensures HasStatus(rs, s) <==> Having(rs, s) != {}
  {
    if i :| 0 <= i < |rs| && rs[i].status == s {
      assert i in Having(rs, s);
    }
  }

  lemma MapMembers<S, T>(s: seq<S>, f: S -> T, y: T)
    ensures y in Map(s, f) <==> exists x :: x in s && f(x) == y
  {
    if x :| x in s && f(x) == y {
      var i :| 0 <= i < |s| && s[i] == x;
      assert Map(s, f)[i] == y;
    }
  }

  lemma OrderedMembers(m: Mission, r: Requirement)
    ensures r in Ordered(m) <==> r in m.requirements
  {
    ByRequirementIdIsPreorder();
    SortSorts(m.requirements, ByRequirementId);
    PermutationMembers(Ordered(m), m.requirements, r);
  }

  /** Every requirement is reported on, and nothing else. */
  lemma EveryRequirementIsReported(m: Mission, g: Registry, now: int, cs: seq<Classification>, docs: seq<Document>, q: RequirementReport)
    ensures q in Plan(m, g, now, cs, docs).body.requirements <==>
            exists r :: r in m.requirements && ReportFor(m, Index(g.sources), now, cs, docs, r) == q
  {
    IsReported(m, Ordered(m), Reporter(m, Index(g.sources), now, cs, docs), q);
  }

  lemma IsReported(m: Mission, order: seq<Requirement>, report: Requirement -> RequirementReport, q: RequirementReport)
    requires order == Ordered(m)
    ensures q in Map(order, report) <==> exists r :: r in m.requirements && report(r) == q
  {
    MapMembers(order, report, q);
    forall r ensures r in order <==> r in m.requirements {
      OrderedMembers(m, r);
    }
  }

}
