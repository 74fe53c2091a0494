/** What the statuses of a coverage report say about mission, registry, classifications and documents themselves. */
module CoverageMeaning {
  import opened Prelude
  import opened Safety
  import opened Validity
  import opened Sorting
  import opened Coverage
  import opened CoverageReports

  predicate InTime(w: Window, now: int) {
    w.from <= now && (w.until == None || now < w.until.value)
  }

  /** At least as careful a class as the requirement's. */
  predicate AsSafe(c: SafetyClass, demanded: SafetyClass) {
    match demanded
    case Advisory => true
    case Standard => c != Advisory
    case High => c == High || c == Critical
    case Critical => c == Critical
  }

  predicate Inside(inner: Scope, outer: Scope) {
    && (forall x :: x in inner.geographies ==> x in outer.geographies)
    && (forall x :: x in inner.languages ==> x in outer.languages)
    && forall x :: x in inner.audiences ==> x in outer.audiences
  }

  /** A source in use, of the mission's field and scope, careful enough, and of the classification's authority. */
  predicate Backs(m: Mission, now: int, r: Requirement, c: Classification, s: Source) {
    && s.enabled && s.approved && s.redistributable && InTime(s.freshness, now)
    && s.vertical == m.vertical && r.category in s.informationClasses && AsSafe(s.risk, r.safety)
    && Inside(m.scope, s.scope) && s.authority == c.authority
  }

  /** A verified classification of this category that fits the mission, every source of which backs it. */
  predicate Trusted(m: Mission, sources: seq<Source>, now: int, r: Requirement, c: Classification) {
    && r.category in c.categories && c.verified && c.redistributable && InTime(c.validity, now) && AsSafe(c.safety, r.safety)
    && Inside(m.scope, c.scope) && (forall x :: x in m.channels ==> x in c.channels)
    && forall id :: id in c.sourceIds ==> exists s :: s in sources && s.id == id && Backs(m, now, r, c, s)
  }

  predicate Concerns(r: Requirement, cs: seq<Classification>, d: Document) {
    exists c :: c in cs && r.category in c.categories && c.documentId == d.id
  }

  predicate Asserts(r: Requirement, cs: seq<Classification>, docs: seq<Document>, fact: string, value: string) {
    exists d :: d in docs && Concerns(r, cs, d) && (fact, value) in d.facts
  }

  /** A document of the category is contested, or two facts of such documents contradict each other. */
  ghost predicate Disagree(r: Requirement, cs: seq<Classification>, docs: seq<Document>) {
    || (exists d :: d in docs && Concerns(r, cs, d) && d.contested.Some?)
    || exists fact, v, w :: v != w && Asserts(r, cs, docs, fact, v) && Asserts(r, cs, docs, fact, w)
  }

  function TrustedSources(m: Mission, sources: seq<Source>, now: int, r: Requirement, cs: seq<Classification>): set<string> {
    set c, id | c in cs && Trusted(m, sources, now, r, c) && id in c.sourceIds :: id
  }

  /** Every intent has a trusted classification, and together they name enough sources. */
  ghost predicate Answered(m: Mission, sources: seq<Source>, now: int, r: Requirement, cs: seq<Classification>) {
    && (forall i :: i in r.intents ==> exists c :: c in cs && Trusted(m, sources, now, r, c) && i in c.intents)
    && (exists c :: c in cs && Trusted(m, sources, now, r, c))
    && |TrustedSources(m, sources, now, r, cs)| >= r.minimumSources
  }

  // ---------------------------------------------------------------- classifications

  lemma RankIsSafety(a: SafetyClass, b: SafetyClass)
    ensures Rank(a) >= Rank(b) <==> AsSafe(a, b)
  {
  }

  lemma UsableIff(s: Source, index: map<string, Source>, now: int)
    requires s.id in index && index[s.id] == s
    ensures s.id in Usable(index, now) <==> s.enabled && s.approved && s.redistributable && InTime(s.freshness, now)
  {
    assert !s.enabled ==> SOURCE_DISABLED in Reasons(s, now);
    assert !s.approved ==> SOURCE_NOT_APPROVED in Reasons(s, now);
    assert !s.redistributable ==> REDISTRIBUTION_PROHIBITED in Reasons(s, now);
    assert !InTime(s.freshness, now) ==> SOURCE_OUTSIDE_VALIDITY in Reasons(s, now);
  }

  lemma BacksIff(m: Mission, index: map<string, Source>, now: int, r: Requirement, c: Classification, s: Source)
    requires s.id in index && index[s.id] == s
    ensures s.id in Usable(index, now) && SourceFits(m, r, c, s) <==> Backs(m, now, r, c, s)
  {
    UsableIff(s, index, now);
    RankIsSafety(s.risk, r.safety);
  }

  lemma SourcesBackIff(m: Mission, g: Registry, now: int, r: Requirement, c: Classification, id: string)
    requires RegistryOk(g)
    ensures (id in Usable(Index(g.sources), now) && id in Index(g.sources) && SourceFits(m, r, c, Index(g.sources)[id]))
       <==> exists s :: s in g.sources && s.id == id && Backs(m, now, r, c, s)
  {
    IndexIs(g.sources);
    var index := Index(g.sources);
    if id in index {
      assert exists s :: s in g.sources && s.id == id;
      BacksIff(m, index, now, r, c, index[id]);
    }
  }

  lemma QualifiesIff(m: Mission, g: Registry, now: int, r: Requirement, c: Classification)
    requires RegistryOk(g)
    ensures Qualifies(m, Index(g.sources), now, r, c) <==> Trusted(m, g.sources, now, r, c)
  {
    RankIsSafety(c.safety, r.safety);
    forall id
      ensures (id in Usable(Index(g.sources), now) && id in Index(g.sources) && SourceFits(m, r, c, Index(g.sources)[id]))
         <==> exists s :: s in g.sources && s.id == id && Backs(m, now, r, c, s)
    {
      SourcesBackIff(m, g, now, r, c, id);
    }
  }

  // ---------------------------------------------------------------- documents

  lemma RelatedIff(r: Requirement, cs: seq<Classification>, docs: seq<Document>, d: Document)
    ensures d in RelatedDocuments(r, cs, docs) <==> d in docs && Concerns(r, cs, d)
  {
    FlatMapMembers(Related(r, cs), DocumentsOf(docs), d);
    WhereMembers(cs, (c: Classification) => RelatedTo(r, c));
    forall c: Classification ensures d in DocumentsOf(docs)(c) <==> d in docs && d.id == c.documentId {
      WhereMembers(docs, (x: Document) => x.id == c.documentId);
    }
    if d in docs && Concerns(r, cs, d) {
      var c :| c in cs && r.category in c.categories && c.documentId == d.id;
      assert c in Related(r, cs) && d in DocumentsOf(docs)(c);
    }
    if d in RelatedDocuments(r, cs, docs) {
      var c :| c in Related(r, cs) && d in DocumentsOf(docs)(c);
      assert c in cs && RelatedTo(r, c);
    }
  }

  lemma AssertsIff(r: Requirement, cs: seq<Classification>, docs: seq<Document>, fact: string, value: string)
    ensures (exists t :: t in Triples(RelatedDocuments(r, cs, docs)) && t.fact == fact && t.value == value)
       <==> Asserts(r, cs, docs, fact, value)
  {
    forall d ensures d in RelatedDocuments(r, cs, docs) <==> d in docs && Concerns(r, cs, d) {
      RelatedIff(r, cs, docs, d);
    }
    var ds := RelatedDocuments(r, cs, docs);
    if Asserts(r, cs, docs, fact, value) {
      var d :| d in docs && Concerns(r, cs, d) && (fact, value) in d.facts;
      assert Triple(fact, value, d.id) in Triples(ds);
    }
    if t :| t in Triples(ds) && t.fact == fact && t.value == value {
      var d, f :| d in ds && f in d.facts && Triple(f.0, f.1, d.id) == t;
      assert f == (fact, value);
    }
  }

  lemma DisagreeIff(r: Requirement, cs: seq<Classification>, docs: seq<Document>)
    ensures InConflict(RelatedDocuments(r, cs, docs)) <==> Disagree(r, cs, docs)
  {
    var ds := RelatedDocuments(r, cs, docs);
    forall d ensures d in ds <==> d in docs && Concerns(r, cs, d) {
      RelatedIff(r, cs, docs, d);
    }
    if t, u :| t in Triples(ds) && u in Triples(ds) && t.fact == u.fact && t.value != u.value {
      AssertsIff(r, cs, docs, t.fact, t.value);
      AssertsIff(r, cs, docs, t.fact, u.value);
    }
    if fact, v, w :| v != w && Asserts(r, cs, docs, fact, v) && Asserts(r, cs, docs, fact, w) {
      AssertsIff(r, cs, docs, fact, v);
      AssertsIff(r, cs, docs, fact, w);
    }
  }

  // ---------------------------------------------------------------- statuses

  lemma SourcesAre(m: Mission, g: Registry, now: int, r: Requirement, cs: seq<Classification>)
    requires RegistryOk(g)
    ensures SourcesOf(Qualifying(m, Index(g.sources), now, r, cs)) == TrustedSources(m, g.sources, now, r, cs)
  {
    QualifyingMembers(m, Index(g.sources), now, r, cs);
    forall c ensures Qualifies(m, Index(g.sources), now, r, c) <==> Trusted(m, g.sources, now, r, c) {
      QualifiesIff(m, g, now, r, c);
    }
  }

  lemma SupportedIff(m: Mission, g: Registry, now: int, r: Requirement, cs: seq<Classification>, intent: string)
    requires RegistryOk(g)
    ensures Supported(m, Index(g.sources), now, r, cs, intent) <==>
            exists c :: c in cs && Trusted(m, g.sources, now, r, c) && intent in c.intents
  {
    forall c ensures Qualifies(m, Index(g.sources), now, r, c) <==> Trusted(m, g.sources, now, r, c) {
      QualifiesIff(m, g, now, r, c);
    }
  }

  /** A requirement is CONFLICTED exactly when its documents disagree, and COVERED exactly when they agree and it
      is answered from trusted classifications: every field that decides is named. */
  lemma StatusOnFields(m: Mission, g: Registry, now: int, r: Requirement, cs: seq<Classification>, docs: seq<Document>)
    requires RegistryOk(g)
    ensures var status := ReportFor(m, Index(g.sources), now, cs, docs, r).status;
            && (status == CONFLICTED <==> Disagree(r, cs, docs))
            && (status == COVERED <==> !Disagree(r, cs, docs) && Answered(m, g.sources, now, r, cs))
  {
    CoveredIff(m, Index(g.sources), now, r, cs, docs);
    DisagreeIff(r, cs, docs);
    SourcesAre(m, g, now, r, cs);
    forall i ensures Supported(m, Index(g.sources), now, r, cs, i) <==>
                     exists c :: c in cs && Trusted(m, g.sources, now, r, c) && i in c.intents {
      SupportedIff(m, g, now, r, cs, i);
    }
    forall c ensures Qualifies(m, Index(g.sources), now, r, c) <==> Trusted(m, g.sources, now, r, c) {
      QualifiesIff(m, g, now, r, c);
    }
  }

  /** The report's findings name exactly the sources that are out of use, each with every reason. */
  lemma FindingsAre(g: Registry, now: int, s: Source)
    requires RegistryOk(g) && s in g.sources
    ensures var findings := Findings(Index(g.sources), now);
            && (s.id in findings <==> !(s.enabled && s.approved && s.redistributable && InTime(s.freshness, now)))
            && (s.id in findings ==>
                  && (SOURCE_DISABLED in findings[s.id] <==> !s.enabled)
                  && (SOURCE_NOT_APPROVED in findings[s.id] <==> !s.approved)
                  && (REDISTRIBUTION_PROHIBITED in findings[s.id] <==> !s.redistributable)
                  && (SOURCE_OUTSIDE_VALIDITY in findings[s.id] <==> !InTime(s.freshness, now)))
  {
    IndexIs(g.sources);
    UsableIff(s, Index(g.sources), now);
  }
}
