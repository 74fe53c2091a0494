/**
 What a passing promotion means in numbers on the evidence, without the tables and the gates that decide it,
 and that better evidence never loses a pass.
 */
module PromotionNumbers {
  import opened Prelude
  import opened Crypto
  import opened Safety
  import opened Promotion

  predicate AtLeastIs(ms: Metrics, k: Metric, x: real) {
    k in ms && ms[k] >= x
  }

  predicate AtMostIs(ms: Metrics, k: Metric, x: real) {
    k in ms && ms[k] <= x
  }

  // ---------------------------------------------------------------- the numbers of each layer

  predicate RetrievalNumbers(ms: Metrics, c: SafetyClass) {
    && AtMostIs(ms, ForbiddenContextRate, 0.0)
    && match c
       case Critical =>
         && AtLeastIs(ms, RecallAt3, 1.0) && AtLeastIs(ms, EvidenceCoverageAt5, 1.0) && AtLeastIs(ms, Mrr, 0.95)
         && AtLeastIs(ms, ScopeAccuracy, 1.0)
       case High =>
         && AtLeastIs(ms, RecallAt3, 0.99) && AtLeastIs(ms, EvidenceCoverageAt5, 0.99) && AtLeastIs(ms, Mrr, 0.90)
         && AtLeastIs(ms, ScopeAccuracy, 1.0)
       case Standard =>
         && AtLeastIs(ms, RecallAt3, 0.97) && AtLeastIs(ms, EvidenceCoverageAt5, 0.98) && AtLeastIs(ms, Mrr, 0.85)
         && AtLeastIs(ms, ScopeAccuracy, 0.995)
       case Advisory =>
         && AtLeastIs(ms, RecallAt3, 0.95) && AtLeastIs(ms, EvidenceCoverageAt5, 0.95) && AtLeastIs(ms, Mrr, 0.80)
         && AtLeastIs(ms, ScopeAccuracy, 0.99)
  }

  predicate AnswerNumbers(ms: Metrics, c: SafetyClass) {
    && AtLeastIs(ms, StaleRefusalRecall, 1.0)
    && match c
       case Critical =>
         && AtLeastIs(ms, GroundedPassRate, 1.0) && AtLeastIs(ms, ClaimPrecision, 1.0) && AtLeastIs(ms, CitationPrecision, 1.0)
         && AtLeastIs(ms, CitationRecall, 1.0) && AtLeastIs(ms, NoAnswerRecall, 1.0)
         && AtLeastIs(ms, CriticalEntityPreservation, 1.0) && AtMostIs(ms, UnsupportedClaimRate, 0.0)
       case High =>
         && AtLeastIs(ms, GroundedPassRate, 0.99) && AtLeastIs(ms, ClaimPrecision, 0.995)
         && AtLeastIs(ms, CitationPrecision, 0.995) && AtLeastIs(ms, CitationRecall, 0.99)
         && AtLeastIs(ms, NoAnswerRecall, 0.995) && AtMostIs(ms, UnsupportedClaimRate, 0.005)
       case Standard =>
         && AtLeastIs(ms, GroundedPassRate, 0.97) && AtLeastIs(ms, ClaimPrecision, 0.99)
         && AtLeastIs(ms, CitationPrecision, 0.99) && AtLeastIs(ms, CitationRecall, 0.98)
         && AtLeastIs(ms, NoAnswerRecall, 0.98) && AtMostIs(ms, UnsupportedClaimRate, 0.01)
       case Advisory =>
         && AtLeastIs(ms, GroundedPassRate, 0.95) && AtLeastIs(ms, ClaimPrecision, 0.98)
         && AtLeastIs(ms, CitationPrecision, 0.98) && AtLeastIs(ms, CitationRecall, 0.95)
         && AtLeastIs(ms, NoAnswerRecall, 0.97) && AtMostIs(ms, UnsupportedClaimRate, 0.02)
  }

  predicate EdgeNumbers(ms: Metrics) {
    && AtMostIs(ms, OomKills, 0.0) && AtMostIs(ms, Evictions, 0.0) && AtMostIs(ms, CorruptIndexes, 0.0)
    && AtMostIs(ms, FailedReadiness, 0.0) && AtMostIs(ms, RetrievalErrorRate, 0.0)
    && AtLeastIs(ms, StorageHeadroom, 0.20) && AtLeastIs(ms, MemoryHeadroom, 0.15)
    && AnswerErrorRate in ms && ms[AnswerErrorRate] < 0.005
    && AtMostIs(ms, WarmP95, 750.0) && AtMostIs(ms, WarmP99, 1500.0) && AtMostIs(ms, CriticalRagP95, 2000.0)
  }

  /** The class is there with at least 50 cases and a list of failed ones, empty for critical cases. */
  predicate CasesSuffice(e: SafetyEvidence, c: SafetyClass) {
    && c in e.classes && e.classes[c].caseCount.Some? && e.classes[c].caseCount.value >= 50
    && e.classes[c].failedCases.Some? && (c == Critical ==> e.classes[c].failedCases.value == [])
  }

  predicate ThreeRuns(e: SafetyEvidence) {
    e.policyViolations == Some(0.0) && e.runs == Some(3.0) && e.deterministic
  }

  predicate RetrievalPasses(e: SafetyEvidence) {
    ThreeRuns(e) && forall c: SafetyClass :: CasesSuffice(e, c) && RetrievalNumbers(e.classes[c].metrics, c)
  }

  predicate AnswerPasses(e: SafetyEvidence) {
    && ThreeRuns(e) && e.lineage == Some(1.0)
    && forall c: SafetyClass :: CasesSuffice(e, c) && AnswerNumbers(e.classes[c].metrics, c)
  }

  predicate ProfilePasses(p: EdgeProfileEvidence) {
    && EdgeNumbers(p.metrics) && p.llmP95.Some? && p.llmP95.value >= 0.0
    && PackageVerification in p.passed && IndexBuild in p.passed && RestartRecovery in p.passed && DisconnectedSmoke in p.passed
  }

  predicate EdgePasses(e: EdgeEvidence) {
    e.profiles != [] && forall i :: 0 <= i < |e.profiles| ==> e.profiles[i].1.Some? && ProfilePasses(e.profiles[i].1.value)
  }

  /** Release, retrieval, answer and edge evidence name one digest for the field. */
  predicate OneDigest(e: Evidence, f: Field) {
    && f in e.release.binding && f in e.retrieval.binding && f in e.answer.binding && f in e.edge.binding
    && e.release.binding[f] == e.retrieval.binding[f] == e.answer.binding[f] == e.edge.binding[f]
  }

  predicate BindingsAgree(e: Evidence) {
    forall f: Field :: OneDigest(e, f)
  }

  /** The suitability report passed without a failure or an open requirement, and repeats the four digests. */
  predicate SuitabilityPasses(e: Evidence) {
    var s := e.suitability;
    && s.reportIdOk && s.recordDigestOk && s.passed && s.failures == Some(0)
    && s.requirements.Some? && s.requirements.value != [] && (forall i :: 0 <= i < |s.requirements.value| ==> s.requirements.value[i])
    && (forall f: Field :: Repeated(f) ==> f in s.bindings && f in e.release.binding && s.bindings[f] == e.release.binding[f])
  }

  predicate Repeated(f: Field) {
    f.PolicyDigest? || f.SourceAggregateDigest? || f.DocumentAggregateDigest? || f.CaseAggregateDigest?
  }

  predicate ReleasePasses(r: ReleaseEvidence) {
    r.passed && (forall c: Check :: c in r.checks) && forall c: HardCount :: c in r.counts && r.counts[c] == 0.0
  }

  predicate SameId(a: map<IdField, string>, b: map<IdField, string>, id: IdField) {
    (id in a <==> id in b) && (id in a ==> a[id] == b[id])
  }

  /** The coverage report is covered throughout, and named by release evidence, package and suitability. */
  predicate CoveragePasses(e: Evidence, c: CoverageEvidence) {
    && c.contractOk && c.covered && (forall i :: 0 <= i < |c.requirements| ==> c.requirements[i])
    && e.release.coverageBinding.Some? && (forall id: IdField :: SameId(e.release.coverageBinding.value, c.ids, id))
    && e.release.governance.Some?
    && (var g := e.release.governance.value;
        && g.governed && g.lineageDigestOk
        && (forall id: IdField :: id != SchemaVersionId ==> SameId(g.ids, c.ids, id))
        && (forall s: Section :: s in g.digests) && g.digests[CoverageReportSection] == Sha256(c))
    && (e.suitability.eventId.Some? ==> EventId in c.ids && c.ids[EventId] == e.suitability.eventId.value)
  }

  /** Everything a promotion demands, stated on the evidence. */
  predicate Deserves(e: Evidence, profile: Profile) {
    && BindingsAgree(e) && SuitabilityPasses(e) && ReleasePasses(e.release)
    && RetrievalPasses(e.retrieval) && AnswerPasses(e.answer) && EdgePasses(e.edge)
    && (if e.coverage.Some? then CoveragePasses(e, e.coverage.value) else profile == LegacyV1)
  }

  // ---------------------------------------------------------------- gates mean numbers

  lemma RetrievalClassIff(ms: Metrics, c: SafetyClass)
    ensures (forall t :: t in RetrievalThresholds(c) ==> Passes(ms, t)) <==> RetrievalNumbers(ms, c)
  {
    var ts := RetrievalThresholds(c);
    assert |ts| == 5 && ts == [ts[0], ts[1], ts[2], ts[3], ts[4]];
    assert (forall t :: t in ts ==> Passes(ms, t)) <==>
      Passes(ms, ts[0]) && Passes(ms, ts[1]) && Passes(ms, ts[2]) && Passes(ms, ts[3]) && Passes(ms, ts[4]);
  }

  lemma AnswerClassIff(ms: Metrics, c: SafetyClass)
    ensures (forall t :: t in AnswerThresholds(c) ==> Passes(ms, t)) <==> AnswerNumbers(ms, c)
  {
    var ts := AnswerThresholds(c);
    if c == Critical {
      assert ts == [ts[0], ts[1], ts[2], ts[3], ts[4], ts[5], ts[6], ts[7]];
    } else {
      assert ts == [ts[0], ts[1], ts[2], ts[3], ts[4], ts[5], ts[6]];
    }
    assert (forall t :: t in ts ==> Passes(ms, t)) <==> forall i :: 0 <= i < |ts| ==> Passes(ms, ts[i]);
  }

  lemma EdgeNumbersIff(ms: Metrics)
    ensures (forall t :: t in EDGE_THRESHOLDS ==> Passes(ms, t)) <==> EdgeNumbers(ms)
  {
    var ts := EDGE_THRESHOLDS;
    assert |ts| == 11;
    assert (forall t :: t in ts ==> Passes(ms, t)) <==> forall i :: 0 <= i < |ts| ==> Passes(ms, ts[i]);
    assert (forall i :: 0 <= i < |ts| ==> Passes(ms, ts[i])) <==>
      && Passes(ms, ts[0]) && Passes(ms, ts[1]) && Passes(ms, ts[2]) && Passes(ms, ts[3]) && Passes(ms, ts[4])
      && Passes(ms, ts[5]) && Passes(ms, ts[6]) && Passes(ms, ts[7]) && Passes(ms, ts[8]) && Passes(ms, ts[9])
      && Passes(ms, ts[10]);
  }

  lemma EveryClass(c: SafetyClass)
    ensures c in CLASSES
  {
  }

  lemma ClassPassesIff(layer: Layer, e: SafetyEvidence, c: SafetyClass)
    ensures ClassGate(layer, e, c) <==>
            CasesSuffice(e, c)
            && if layer == Retrieval then RetrievalNumbers(e.classes[c].metrics, c) else AnswerNumbers(e.classes[c].metrics, c)
  {
    RetrievalClassIff(ClassValues(e, c).metrics, c);
    AnswerClassIff(ClassValues(e, c).metrics, c);
  }

  lemma SafetyPassesIff(e: SafetyEvidence)
    ensures SafetyGate(Retrieval, e) <==> RetrievalPasses(e)
    ensures AnswerGate(e) <==> AnswerPasses(e)
  {
    forall c: SafetyClass
      ensures c in CLASSES
      ensures ClassGate(Retrieval, e, c) <==> CasesSuffice(e, c) && RetrievalNumbers(e.classes[c].metrics, c)
      ensures ClassGate(GroundedAnswer, e, c) <==> CasesSuffice(e, c) && AnswerNumbers(e.classes[c].metrics, c)
    {
      EveryClass(c);
      ClassPassesIff(Retrieval, e, c);
      ClassPassesIff(GroundedAnswer, e, c);
    }
  }

  lemma ProfileFlagsIff(p: EdgeProfileEvidence)
    ensures (forall c :: c in PROFILE_CHECKS ==> c in p.passed) <==>
            PackageVerification in p.passed && IndexBuild in p.passed && RestartRecovery in p.passed && DisconnectedSmoke in p.passed
  {
    assert PROFILE_CHECKS[0] in PROFILE_CHECKS && PROFILE_CHECKS[1] in PROFILE_CHECKS && PROFILE_CHECKS[2] in PROFILE_CHECKS
           && PROFILE_CHECKS[3] in PROFILE_CHECKS;
  }

  lemma ProfilePassesIff(p: Option<EdgeProfileEvidence>)
    ensures ProfileGate(p) <==> p.Some? && ProfilePasses(p.value)
  {
    if p.Some? {
      EdgeNumbersIff(p.value.metrics);
      ProfileFlagsIff(p.value);
    }
  }

  lemma EdgePassesIff(e: EdgeEvidence)
    ensures EdgeGate(e) <==> EdgePasses(e)
  {
    forall i | 0 <= i < |e.profiles|
      ensures e.profiles[i] in e.profiles
      ensures ProfileGate(e.profiles[i].1) <==> e.profiles[i].1.Some? && ProfilePasses(e.profiles[i].1.value)
    {
      ProfilePassesIff(e.profiles[i].1);
    }
    forall x | x in e.profiles ensures exists i :: 0 <= i < |e.profiles| && e.profiles[i] == x {}
  }

  lemma EveryField(f: Field)
    ensures f in FIELDS
  {
    var i := match f
      case ReleaseDigest => 0
      case CorpusDigest => 1
      case EvalSetDigest => 2
      case ModelDigest => 3
      case EmbeddingModelDigest => 4
      case ChunkerDigest => 5
      case PolicyDigest => 6
      case SourceAggregateDigest => 7
      case DocumentAggregateDigest => 8
      case CaseAggregateDigest => 9;
    assert FIELDS[i] == f;
  }

  lemma EverySource(s: Source)
    ensures s in SOURCES
  {
    assert SOURCES[0] in SOURCES && SOURCES[1] in SOURCES && SOURCES[2] in SOURCES && SOURCES[3] in SOURCES;
  }

  lemma OneDigestIsBound(e: Evidence, f: Field)
    requires OneDigest(e, f)
    ensures Bound(e, f, e.release.binding[f]) && Resolved(e, f) == Some(e.release.binding[f])
  {
    var d := e.release.binding[f];
    forall s: Source ensures s in SOURCES && Get(BindingFrom(e, s), f) == Some(d) {
      EverySource(s);
    }
    NamedMembers(e, f);
    assert Get(BindingFrom(e, FromRelease), f) == Some(d);
    var ds := Named(e, f);
    assert d in ds && forall x :: x in ds ==> x == d;
    assert ds[0] in ds;
  }

  lemma FieldBoundIff(e: Evidence, f: Field)
    ensures FieldBound(e, f) <==> OneDigest(e, f)
  {
    if OneDigest(e, f) {
      OneDigestIsBound(e, f);
    }
    if FieldBound(e, f) {
      forall s: Source ensures Get(BindingFrom(e, s), f) == Resolved(e, f) {
        EverySource(s);
      }
      assert Get(BindingFrom(e, FromRelease), f) == Get(BindingFrom(e, FromRetrieval), f) == Get(BindingFrom(e, FromAnswer), f)
             == Get(BindingFrom(e, FromEdge), f);
    }
  }

  lemma BindingsAgreeIff(e: Evidence)
    ensures BindingGate(e) <==> BindingsAgree(e)
  {
    forall f: Field ensures f in FIELDS && (FieldBound(e, f) <==> OneDigest(e, f)) {
      EveryField(f);
      FieldBoundIff(e, f);
    }
  }

  lemma SharedAre(f: Field)
    ensures f in SHARED <==> Repeated(f)
  {
    assert SHARED[0] in SHARED && SHARED[1] in SHARED && SHARED[2] in SHARED && SHARED[3] in SHARED;
  }

  lemma SuitabilityPassesIff(e: Evidence)
    requires BindingsAgree(e)
    ensures SuitabilityGate(e) <==> SuitabilityPasses(e)
  {
    forall f: Field
      ensures OneDigest(e, f) && Resolved(e, f) == Some(e.release.binding[f])
      ensures f in SHARED <==> Repeated(f)
    {
      OneDigestIsBound(e, f);
      SharedAre(f);
    }
  }

  lemma EveryCheck(c: Check)
    ensures c in CHECKS
  {
    var i := match c
      case Schema => 0
      case Lineage => 1
      case Scope => 2
      case Freshness => 3
      case Conflicts => 4
      case Licenses => 5
      case Approvals => 6
      case Hashes => 7
      case Signatures => 8
      case Completeness => 9;
    assert CHECKS[i] == c;
  }

  lemma EveryCount(c: HardCount)
    ensures c in COUNTS
  {
    assert COUNTS[0] in COUNTS && COUNTS[1] in COUNTS && COUNTS[2] in COUNTS && COUNTS[3] in COUNTS;
  }

  lemma ReleasePassesIff(r: ReleaseEvidence)
    ensures ReleaseGate(r) <==> ReleasePasses(r)
  {
    forall c: Check ensures c in CHECKS {
      EveryCheck(c);
    }
    forall c: HardCount ensures c in COUNTS {
      EveryCount(c);
    }
  }

  lemma EverySection(s: Section)
    ensures s in SECTIONS
  {
    assert SECTIONS[0] in SECTIONS && SECTIONS[1] in SECTIONS && SECTIONS[2] in SECTIONS && SECTIONS[3] in SECTIONS;
  }

  lemma EveryId(id: IdField)
    ensures id in ID_FIELDS && (id in GOVERNANCE_IDS <==> id != SchemaVersionId)
  {
    assert ID_FIELDS[0] in ID_FIELDS && ID_FIELDS[1] in ID_FIELDS && ID_FIELDS[2] in ID_FIELDS && ID_FIELDS[3] in ID_FIELDS
           && ID_FIELDS[4] in ID_FIELDS;
    assert GOVERNANCE_IDS[0] in GOVERNANCE_IDS && GOVERNANCE_IDS[1] in GOVERNANCE_IDS && GOVERNANCE_IDS[2] in GOVERNANCE_IDS
           && GOVERNANCE_IDS[3] in GOVERNANCE_IDS;
  }

  lemma CoveragePassesIff(e: Evidence, c: CoverageEvidence)
    ensures CoverageGate(e, c) <==> CoveragePasses(e, c)
  {
    forall id: IdField ensures id in ID_FIELDS && (id in GOVERNANCE_IDS <==> id != SchemaVersionId) {
      EveryId(id);
    }
    forall s: Section ensures s in SECTIONS {
      EverySection(s);
    }
    if e.release.coverageBinding.Some? {
      var m := e.release.coverageBinding.value;
      assert forall id: IdField :: SameId(m, c.ids, id) <==> Get(m, id) == Get(c.ids, id);
    }
    if e.release.governance.Some? {
      var m := e.release.governance.value.ids;
      assert forall id: IdField :: SameId(m, c.ids, id) <==> Get(m, id) == Get(c.ids, id);
    }
  }

  lemma GatesMeanNumbers(e: Evidence, profile: Profile)
    ensures BindingGate(e) && SuitabilityGate(e) <==> BindingsAgree(e) && SuitabilityPasses(e)
    ensures CoverageDemand(e, profile) <==> if e.coverage.Some? then CoveragePasses(e, e.coverage.value) else profile == LegacyV1
  {
    BindingsAgreeIff(e);
    if BindingsAgree(e) {
      SuitabilityPassesIff(e);
    }
    if e.coverage.Some? {
      CoveragePassesIff(e, e.coverage.value);
    }
  }

  lemma LayersMeanNumbers(e: Evidence)
    ensures ReleaseGate(e.release) <==> ReleasePasses(e.release)
    ensures SafetyGate(Retrieval, e.retrieval) <==> RetrievalPasses(e.retrieval)
    ensures AnswerGate(e.answer) <==> AnswerPasses(e.answer)
    ensures EdgeGate(e.edge) <==> EdgePasses(e.edge)
  {
    ReleasePassesIff(e.release);
    SafetyPassesIff(e.retrieval);
    SafetyPassesIff(e.answer);
    EdgePassesIff(e.edge);
  }

  predicate GatesMet(e: Evidence, profile: Profile) {
    && BindingGate(e) && SuitabilityGate(e) && CoverageDemand(e, profile) && ReleaseGate(e.release)
    && SafetyGate(Retrieval, e.retrieval) && AnswerGate(e.answer) && EdgeGate(e.edge)
  }

  lemma PassMeansGates(e: Evidence, profile: Profile, order: Order)
    ensures Promoted(e, profile, order).body.decision == PASS <==> GatesMet(e, profile)
  {
    PassIff(e, profile, order);
  }

  lemma DeservesIff(e: Evidence, profile: Profile)
    ensures GatesMet(e, profile) <==> Deserves(e, profile)
  {
    GatesMeanNumbers(e, profile);
    LayersMeanNumbers(e);
  }

  /** The decision is PASS if and only if the evidence deserves it, number by number. */
  lemma PassIffDeserved(e: Evidence, profile: Profile, order: Order)
    ensures Promoted(e, profile, order).body.decision == PASS <==> Deserves(e, profile)
  {
    PassMeansGates(e, profile, order);
    DeservesIff(e, profile);
  }

  // ---------------------------------------------------------------- better evidence

  /** Rates of success and headroom: more is better. Everything else counts errors or measures time. */
  predicate MoreIsBetter(k: Metric) {
    k in {RecallAt3, EvidenceCoverageAt5, Mrr, ScopeAccuracy, GroundedPassRate, ClaimPrecision, CitationPrecision,
          CitationRecall, NoAnswerRecall, StaleRefusalRecall, CriticalEntityPreservation, StorageHeadroom, MemoryHeadroom}
  }

  /** Every metric is there again and no worse. */
  predicate NoWorse(was: Metrics, now: Metrics) {
    forall k :: k in was ==> k in now && if MoreIsBetter(k) then now[k] >= was[k] else now[k] <= was[k]
  }

  predicate SafetyNoWorse(was: SafetyEvidence, now: SafetyEvidence) {
    && now.(classes := was.classes) == was
    && forall c :: c in was.classes ==>
         c in now.classes && now.classes[c].(metrics := was.classes[c].metrics) == was.classes[c]
         && NoWorse(was.classes[c].metrics, now.classes[c].metrics)
  }

  predicate ProfileNoWorse(was: (string, Option<EdgeProfileEvidence>), now: (string, Option<EdgeProfileEvidence>)) {
    was.1.Some? ==> now.1.Some? && now.1.value.(metrics := was.1.value.metrics) == was.1.value
                    && NoWorse(was.1.value.metrics, now.1.value.metrics)
  }

  predicate EdgeNoWorse(was: EdgeEvidence, now: EdgeEvidence) {
    && now.binding == was.binding && |now.profiles| == |was.profiles|
    && forall i :: 0 <= i < |was.profiles| ==> ProfileNoWorse(was.profiles[i], now.profiles[i])
  }

  predicate EvidenceNoWorse(was: Evidence, now: Evidence) {
    && now.(retrieval := was.retrieval, answer := was.answer, edge := was.edge) == was
    && SafetyNoWorse(was.retrieval, now.retrieval) && SafetyNoWorse(was.answer, now.answer) && EdgeNoWorse(was.edge, now.edge)
  }

  lemma RetrievalNumbersStay(was: Metrics, now: Metrics, c: SafetyClass)
    requires NoWorse(was, now) && RetrievalNumbers(was, c)
    ensures RetrievalNumbers(now, c)
  {
  }

  lemma AnswerNumbersStay(was: Metrics, now: Metrics, c: SafetyClass)
    requires NoWorse(was, now) && AnswerNumbers(was, c)
    ensures AnswerNumbers(now, c)
  {
  }

  lemma EdgeNumbersStay(was: Metrics, now: Metrics)
    requires NoWorse(was, now) && EdgeNumbers(was)
    ensures EdgeNumbers(now)
  {
  }

  lemma SafetyStays(was: SafetyEvidence, now: SafetyEvidence)
    requires SafetyNoWorse(was, now)
    ensures RetrievalPasses(was) ==> RetrievalPasses(now)
    ensures AnswerPasses(was) ==> AnswerPasses(now)
  {
    if RetrievalPasses(was) {
      forall c: SafetyClass ensures CasesSuffice(now, c) && RetrievalNumbers(now.classes[c].metrics, c) {
        assert CasesSuffice(was, c);
        RetrievalNumbersStay(was.classes[c].metrics, now.classes[c].metrics, c);
      }
    }
    if AnswerPasses(was) {
      forall c: SafetyClass ensures CasesSuffice(now, c) && AnswerNumbers(now.classes[c].metrics, c) {
        assert CasesSuffice(was, c);
        AnswerNumbersStay(was.classes[c].metrics, now.classes[c].metrics, c);
      }
    }
  }

  lemma EdgeStays(was: EdgeEvidence, now: EdgeEvidence)
    requires EdgeNoWorse(was, now) && EdgePasses(was)
    ensures EdgePasses(now)
  {
    forall i | 0 <= i < |now.profiles| ensures now.profiles[i].1.Some? && ProfilePasses(now.profiles[i].1.value) {
      assert ProfileNoWorse(was.profiles[i], now.profiles[i]);
      EdgeNumbersStay(was.profiles[i].1.value.metrics, now.profiles[i].1.value.metrics);
    }
  }

  lemma RestStays(was: Evidence, now: Evidence)
    requires EvidenceNoWorse(was, now)
    ensures BindingsAgree(was) ==> BindingsAgree(now)
    ensures now.suitability == was.suitability && now.release == was.release && now.coverage == was.coverage
  {
    forall f: Field ensures OneDigest(was, f) ==> OneDigest(now, f) {}
  }

  lemma DesertStays(was: Evidence, now: Evidence, profile: Profile)
    requires EvidenceNoWorse(was, now) && Deserves(was, profile)
    ensures Deserves(now, profile)
  {
    RestStays(was, now);
    SafetyStays(was.retrieval, now.retrieval);
    SafetyStays(was.answer, now.answer);
    EdgeStays(was.edge, now.edge);
  }

  /** Improving any metrics, of any classes and profiles at once, never turns PASS into FAIL. */
  lemma BetterEvidenceStillPasses(was: Evidence, now: Evidence, profile: Profile, order: Order, other: Order)
    requires EvidenceNoWorse(was, now) && Promoted(was, profile, order).body.decision == PASS
    ensures Promoted(now, profile, other).body.decision == PASS
  {
    PassIffDeserved(was, profile, order);
    DesertStays(was, now, profile);
    PassIffDeserved(now, profile, other);
  }
}
