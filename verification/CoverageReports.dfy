/** What a coverage report says, and that it does not depend on the order of its inputs. */
module CoverageReports {
  import opened Crypto
  import opened Sorting
  import opened Coverage

  // ---------------------------------------------------------------- order

  ghost predicate DistinctDocuments(docs: seq<Document>) {
    forall d, e :: d in docs && e in docs && d.id == e.id ==> d == e
  }

  lemma DeclaredHasNoTies(ds: seq<Document>, docs: seq<Document>)
    requires DistinctDocuments(docs) && forall d :: d in ds ==> d in docs
    ensures NoTies(FlatMap(ds, DeclaredIn()), ByDocument)
  {
    var all := FlatMap(ds, DeclaredIn());
    forall x, y | x in all && y in all && ByDocument(x, y) && ByDocument(y, x) ensures x == y {
      StringLeTotal(x.documentId, y.documentId);
      FlatMapMembers(ds, DeclaredIn(), x);
      FlatMapMembers(ds, DeclaredIn(), y);
      var d :| d in ds && x in DeclaredIn()(d);
      var e :| e in ds && y in DeclaredIn()(e);
    }
  }

  lemma ByDocumentIsPreorder()
    ensures Preorder(ByDocument)
  {
    forall x, y ensures ByDocument(x, y) || ByDocument(y, x) {
      StringLeTotal(x.documentId, y.documentId);
    }
    forall x, y, z | ByDocument(x, y) && ByDocument(y, z) ensures ByDocument(x, z) {
      StringLeTransitive(x.documentId, y.documentId, z.documentId);
    }
  }

  lemma TriplesForgetOrder(a: seq<Document>, b: seq<Document>)
    requires Permutation(a, b)
    ensures Triples(a) == Triples(b)
  {
    forall d ensures d in a <==> d in b {
      PermutationMembers(a, b, d);
    }
  }

  lemma ConflictsForgetOrder(a: seq<Document>, b: seq<Document>, docs: seq<Document>)
    requires Permutation(a, b) && DistinctDocuments(docs) && forall d :: d in a ==> d in docs
    ensures ConflictsOf(a) == ConflictsOf(b)
  {
    TriplesForgetOrder(a, b);
    FlatMapPermutes(a, b, DeclaredIn());
    ByDocumentIsPreorder();
    DeclaredHasNoTies(a, docs);
    SortForgetsOrder(FlatMap(a, DeclaredIn()), FlatMap(b, DeclaredIn()), ByDocument);
  }

  lemma RelatedDocumentsPermute(r: Requirement, cs: seq<Classification>, cs': seq<Classification>,
                                docs: seq<Document>, docs': seq<Document>)
    requires Permutation(cs, cs') && Permutation(docs, docs')
    ensures Permutation(RelatedDocuments(r, cs, docs), RelatedDocuments(r, cs', docs'))
    ensures forall d :: d in RelatedDocuments(r, cs, docs) ==> d in docs
  {
    WherePermutes(cs, cs', (c: Classification) => RelatedTo(r, c));
    FlatMapPermutes(Related(r, cs), Related(r, cs'), DocumentsOf(docs));
    forall c: Classification ensures Permutation(DocumentsOf(docs)(c), DocumentsOf(docs')(c)) {
      WherePermutes(docs, docs', (d: Document) => d.id == c.documentId);
    }
    FlatMapToAlike(Related(r, cs'), DocumentsOf(docs), DocumentsOf(docs'), |Related(r, cs')|);
    forall d | d in RelatedDocuments(r, cs, docs) ensures d in docs {
      FlatMapMembers(Related(r, cs), DocumentsOf(docs), d);
      var c :| c in Related(r, cs) && d in DocumentsOf(docs)(c);
      WhereMembers(docs, (d: Document) => d.id == c.documentId);
    }
  }

  lemma AssessForgetsOrder(r: Requirement, related: seq<Classification>, related': seq<Classification>,
                           qs: seq<Classification>, qs': seq<Classification>, conflicts: Conflicts)
    requires Permutation(related, related') && Permutation(qs, qs')
    ensures Assess(r, related, qs, conflicts) == Assess(r, related', qs', conflicts)
  {
    var id := (c: Classification) => c.id;
    MapPermutes(related, related', id);
    MapPermutes(qs, qs', id);
    SortedStringsForgetOrder(Map(related, id), Map(related', id));
    SortedStringsForgetOrder(Map(qs, id), Map(qs', id));
    PermutationLength(qs, qs');
    forall c ensures c in qs <==> c in qs' {
      PermutationMembers(qs, qs', c);
    }
    assert CoveredIntents(qs) == CoveredIntents(qs');
    assert SourcesOf(qs) == SourcesOf(qs');
  }

  lemma RequirementForgetsOrder(m: Mission, index: map<string, Source>, now: int, r: Requirement, cs: seq<Classification>,
                                cs': seq<Classification>, docs: seq<Document>, docs': seq<Document>)
    requires Permutation(cs, cs') && Permutation(docs, docs') && DistinctDocuments(docs)
    ensures ReportFor(m, index, now, cs, docs, r) == ReportFor(m, index, now, cs', docs', r)
  {
    WherePermutes(cs, cs', (c: Classification) => RelatedTo(r, c));
    WherePermutes(Related(r, cs), Related(r, cs'), (c: Classification) => Qualifies(m, index, now, r, c));
    RelatedDocumentsPermute(r, cs, cs', docs, docs');
    ConflictsForgetOrder(RelatedDocuments(r, cs, docs), RelatedDocuments(r, cs', docs'), docs);
    AssessForgetsOrder(r, Related(r, cs), Related(r, cs'), Qualifying(m, index, now, r, cs),
                       Qualifying(m, index, now, r, cs'), ConflictsOf(RelatedDocuments(r, cs, docs)));
  }

  /** The report is the same for every order of classifications, registry sources and documents. */
  lemma PlanForgetsOrder(m: Mission, g: Registry, g': Registry, now: int, cs: seq<Classification>,
                         cs': seq<Classification>, docs: seq<Document>, docs': seq<Document>)
    requires RegistryOk(g) && g' == g.(sources := g'.sources) && Permutation(g.sources, g'.sources)
    requires Permutation(cs, cs') && Permutation(docs, docs') && DistinctDocuments(docs)
    ensures Plan(m, g, now, cs, docs) == Plan(m, g', now, cs', docs')
  {
    IndexForgetsOrder(g.sources, g'.sources);
    forall i | 0 <= i < |Ordered(m)|
      ensures Reports(m, Index(g.sources), now, cs, docs)[i] == Reports(m, Index(g.sources), now, cs', docs')[i]
    {
      RequirementForgetsOrder(m, Index(g.sources), now, Ordered(m)[i], cs, cs', docs, docs');
    }
    assert Reports(m, Index(g.sources), now, cs, docs) == Reports(m, Index(g.sources), now, cs', docs');
  }

  /** Whether the inputs are refused does not depend on their order either. */
  lemma PlannableForgetsOrder(m: Mission, g: Registry, g': Registry, cs: seq<Classification>, cs': seq<Classification>,
                              docs: seq<Document>, docs': seq<Document>)
    requires g' == g.(sources := g'.sources) && Permutation(g.sources, g'.sources)
    requires Permutation(cs, cs') && Permutation(docs, docs') && Plannable(m, g, cs, docs)
    ensures Plannable(m, g', cs', docs')
  {
    PermutationKeepsDistinct(g.sources, g'.sources, (s: Source) => s.id);
    PermutationKeepsDistinct(cs, cs', (c: Classification) => c.id);
    forall c ensures c in cs <==> c in cs' {
      PermutationMembers(cs, cs', c);
    }
    forall d ensures d in docs <==> d in docs' {
      PermutationMembers(docs, docs', d);
    }
  }

  // ---------------------------------------------------------------- what the statuses mean

  /** Some related document is declared contested, or two of them assert different values of one fact. */
  ghost predicate InConflict(ds: seq<Document>) {
    || (exists d :: d in ds && d.contested.Some?)
    || exists t, u :: t in Triples(ds) && u in Triples(ds) && t.fact == u.fact && t.value != u.value
  }

  lemma ConflictedIff(ds: seq<Document>)
    ensures Conflicted(ConflictsOf(ds)) <==> InConflict(ds)
  {
    FlatMapIsEmptyIff(ds, DeclaredIn());
    ByDocumentIsPreorder();
    SortSorts(FlatMap(ds, DeclaredIn()), ByDocument);
    PermutationLength(Sort(FlatMap(ds, DeclaredIn()), ByDocument), FlatMap(ds, DeclaredIn()));
    var ts := Triples(ds);
    if t, u :| t in ts && u in ts && t.fact == u.fact && t.value != u.value {
      assert Collides(ts, t.fact) && t.fact in Collisions(ts);
    }
    if Collisions(ts) != map[] {
      var fact :| fact in Collisions(ts);
      assert Collides(ts, fact);
    }
  }

  lemma QualifyingMembers(m: Mission, index: map<string, Source>, now: int, r: Requirement, cs: seq<Classification>)
    ensures forall c :: c in Qualifying(m, index, now, r, cs) <==> c in cs && Qualifies(m, index, now, r, c)
  {
    WhereMembers(cs, (c: Classification) => RelatedTo(r, c));
    WhereMembers(Related(r, cs), (c: Classification) => Qualifies(m, index, now, r, c));
  }

  /** A classification that passes every gate supports the intent. */
  ghost predicate Supported(m: Mission, index: map<string, Source>, now: int, r: Requirement, cs: seq<Classification>, intent: string) {
    exists c :: c in cs && Qualifies(m, index, now, r, c) && intent in c.intents
  }

  /** A requirement is COVERED exactly when its documents agree, every required intent is supported by a
      classification that passes every gate, and those classifications name enough sources. */
  lemma CoveredIff(m: Mission, index: map<string, Source>, now: int, r: Requirement, cs: seq<Classification>, docs: seq<Document>)
    ensures var report := ReportFor(m, index, now, cs, docs, r);
            && (report.status == CONFLICTED <==> InConflict(RelatedDocuments(r, cs, docs)))
            && (report.status == COVERED <==>
                  && !InConflict(RelatedDocuments(r, cs, docs))
                  && (forall i :: i in r.intents ==> Supported(m, index, now, r, cs, i))
                  && |report.qualifyingSources| >= r.minimumSources
                  && exists c :: c in cs && Qualifies(m, index, now, r, c))
  {
    ConflictedIff(RelatedDocuments(r, cs, docs));
    QualifyingMembers(m, index, now, r, cs);
    GapsEmptyIff(r, Qualifying(m, index, now, r, cs));
  }

  lemma GapsEmptyIff(r: Requirement, qs: seq<Classification>)
    ensures GapsOf(r, qs) == {} <==>
            && (forall i :: i in r.intents ==> exists c :: c in qs && i in c.intents)
            && |SourcesOf(qs)| >= r.minimumSources && exists c :: c in qs
  {
    if i :| i in r.intents && i !in CoveredIntents(qs) {
      assert MissingIntent(INTENT_PREFIX + i) in GapsOf(r, qs);
    }
    if |SourcesOf(qs)| < r.minimumSources {
      assert InsufficientSources(|SourcesOf(qs)|, r.minimumSources) in GapsOf(r, qs);
    }
    if qs == [] {
      assert NoQualifyingClassification in GapsOf(r, qs);
    } else {
      assert qs[0] in qs;
    }
  }

  // ---------------------------------------------------------------- the validator's rules

  /** What the validator demands of a coverage report. */
  ghost predicate ReportContract(r: Report) {
    && r.id == Sha256(r.body)
    && DistinctBy(r.body.requirements, (x: RequirementReport) => x.id)
    && DistinctBy(r.body.requirements, (x: RequirementReport) => x.category)
    && r.body.summary == SummaryOf(r.body.requirements)
    && r.body.decision == DecisionOf(r.body.requirements)
  }

  lemma ByRequirementIdIsPreorder()
    ensures Preorder(ByRequirementId)
  {
    forall x, y ensures ByRequirementId(x, y) || ByRequirementId(y, x) {
      StringLeTotal(x.id, y.id);
    }
    forall x, y, z | ByRequirementId(x, y) && ByRequirementId(y, z) ensures ByRequirementId(x, z) {
      StringLeTransitive(x.id, y.id, z.id);
    }
  }

  lemma PlanMeetsContract(m: Mission, g: Registry, now: int, cs: seq<Classification>, docs: seq<Document>)
    requires MissionOk(m)
    ensures ReportContract(Plan(m, g, now, cs, docs))
  {
    OrderedKeepsDistinct(m);
    ReportsKeepDistinct(m, Ordered(m), Reports(m, Index(g.sources), now, cs, docs));
  }

  lemma OrderedKeepsDistinct(m: Mission)
    requires MissionOk(m)
    ensures DistinctBy(Ordered(m), (r: Requirement) => r.id) && DistinctBy(Ordered(m), (r: Requirement) => r.category)
  {
    ByRequirementIdIsPreorder();
    SortSorts(m.requirements, ByRequirementId);
    PermutationKeepsDistinct(m.requirements, Ordered(m), (r: Requirement) => r.id);
    PermutationKeepsDistinct(m.requirements, Ordered(m), (r: Requirement) => r.category);
  }

  lemma ReportsKeepDistinct(m: Mission, rs: seq<Requirement>, reports: seq<RequirementReport>)
    requires DistinctBy(rs, (r: Requirement) => r.id) && DistinctBy(rs, (r: Requirement) => r.category)
    requires |reports| == |rs| && forall i :: 0 <= i < |rs| ==> reports[i].id == rs[i].id && reports[i].category == rs[i].category
    ensures DistinctBy(reports, (x: RequirementReport) => x.id) && DistinctBy(reports, (x: RequirementReport) => x.category)
  {
    var byId, byCategory := (r: Requirement) => r.id, (r: Requirement) => r.category;
    forall i, j | 0 <= i < j < |reports|
      ensures reports[i].id != reports[j].id && reports[i].category != reports[j].category
    {
      assert byId(rs[i]) != byId(rs[j]) && byCategory(rs[i]) != byCategory(rs[j]);
    }
  }

  /** The three counts add up, and the decision is the worst status: a report covers its mission exactly
      when every requirement is covered. */
  lemma {:induction false} SummaryAddsUp(rs: seq<RequirementReport>)
    ensures CountStatus(rs, COVERED) + CountStatus(rs, GAP) + CountStatus(rs, CONFLICTED) == |rs|
    ensures DecisionOf(rs) == ALL_COVERED <==> CountStatus(rs, COVERED) == |rs|
    ensures DecisionOf(rs) == CONFLICTS <==> CountStatus(rs, CONFLICTED) > 0
  {
    if rs != [] {
      SummaryAddsUp(rs[..|rs| - 1]);
    }
  }
}
