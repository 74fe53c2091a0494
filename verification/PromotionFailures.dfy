/**
 Which failures a promotion report lists: each one stated on the evidence, by its code and by the place it names,
 without the lists the layers append.
 */
module PromotionFailures {
  import opened Prelude
  import opened Crypto
  import opened Sorting
  import opened Safety
  import opened Promotion
  import opened PromotionNumbers

  // ---------------------------------------------------------------- digests

  function BindingIn(e: Evidence, s: Source): Binding {
    if s.FromRelease? then e.release.binding
    else if s.FromRetrieval? then e.retrieval.binding
    else if s.FromAnswer? then e.answer.binding
    else e.edge.binding
  }

  predicate Names(e: Evidence, s: Source, k: Field, d: Digest<Blob>) {
    k in BindingIn(e, s) && BindingIn(e, s)[k] == d
  }

  /** Two sources name different digests. */
  ghost predicate Disputed(e: Evidence, k: Field) {
    exists a: Source, b: Source, d, f :: Names(e, a, k, d) && Names(e, b, k, f) && d != f
  }

  /** Some source names the digest, and nobody another one. */
  ghost predicate Alone(e: Evidence, k: Field, d: Digest<Blob>) {
    (exists s: Source :: Names(e, s, k, d)) && forall s: Source, f :: Names(e, s, k, f) ==> f == d
  }

  lemma NamedMeans(e: Evidence, k: Field, d: Digest<Blob>)
    ensures d in Named(e, k) <==> exists s: Source :: Names(e, s, k, d)
  {
    NamedMembers(e, k);
    forall s: Source ensures s in SOURCES && (Get(BindingFrom(e, s), k) == Some(d) <==> Names(e, s, k, d)) {
      EverySource(s);
    }
  }

  lemma NamesListed(e: Evidence, s: Source, k: Field, d: Digest<Blob>)
    requires Names(e, s, k, d)
    ensures d in Named(e, k)
  {
    NamedMeans(e, k, d);
  }

  lemma DisputedIff(e: Evidence, k: Field)
    ensures !AllEqual(Named(e, k)) <==> Disputed(e, k)
  {
    var ds := Named(e, k);
    if !AllEqual(ds) {
      var d :| d in ds && d != ds[0];
      NamedMeans(e, k, d);
      NamedMeans(e, k, ds[0]);
    }
    if a: Source, b: Source, d, f :| Names(e, a, k, d) && Names(e, b, k, f) && d != f {
      NamesListed(e, a, k, d);
      NamesListed(e, b, k, f);
    }
  }

  /** The report's table names a digest for a field exactly when a source names it and nobody another one. */
  lemma ResolvedIff(e: Evidence, profile: Profile, order: Order, k: Field, d: Digest<Blob>)
    ensures var table := Promoted(e, profile, order).body.binding;
            k in table && (table[k] == Some(d) <==> Alone(e, k, d))
  {
    EveryField(k);
    AloneIff(e, k, d);
  }

  lemma AloneIff(e: Evidence, k: Field, d: Digest<Blob>)
    ensures Resolved(e, k) == Some(d) <==> Alone(e, k, d)
  {
    var ds := Named(e, k);
    DisputedIff(e, k);
    NamedMeans(e, k, d);
    if ds != [] {
      NamedMeans(e, k, ds[0]);
    }
  }

  // ---------------------------------------------------------------- what is wrong

  ghost predicate BindingFault(e: Evidence, code: Code, path: Path) {
    match path
    case BindingOf(s, k) => code == MISSING_OR_INVALID_BINDING && k !in BindingIn(e, s)
    case BindingAll(k) => code == BINDING_MISMATCH && Disputed(e, k)
    case _ => false
  }

  ghost predicate SuitabilityFault(e: Evidence, code: Code, path: Path) {
    var s := e.suitability;
    match path
    case SuitabilityBinding(k) =>
      Repeated(k) && if k in s.bindings then code == BINDING_MISMATCH && !Alone(e, k, s.bindings[k])
                     else code == MISSING_OR_INVALID_BINDING
    case Part(WholeLayer, n) =>
      || (code == INVALID_REPORT_ID && n == 0 && !s.reportIdOk)
      || (code == SUITABILITY_FAILURES && n == 1 && s.failures != Some(0))
      || (code == REQUIREMENT_BLOCKED && n == 2
          && (s.requirements.None? || s.requirements.value == [] || false in s.requirements.value))
      || (code == SUITABILITY_BLOCKED && n == 3 && !s.passed)
      || (code == MISSING_OR_INVALID_BINDING && n == 4 && !s.recordDigestOk)
    case _ => false
  }

  predicate PackageFault(g: PackageGovernance, c: CoverageEvidence, code: Code, path: Path) {
    match path
    case GovernanceAt(id) => code == COVERAGE_IDENTITY_MISMATCH && id != SchemaVersionId && !SameId(g.ids, c.ids, id)
    case SectionAt(s) =>
      || (code == MISSING_OR_INVALID_BINDING && s !in g.digests)
      || (code == COVERAGE_DIGEST_MISMATCH && s == CoverageReportSection
          && (s in g.digests ==> g.digests[s] != Sha256(c)))
    case Part(WholeLayer, n) =>
      || (code == PROFILE_MISMATCH && n == 2 && !g.governed)
      || (code == MISSING_OR_INVALID_BINDING && n == 3 && !g.lineageDigestOk)
    case _ => false
  }

  predicate IdentityFault(e: Evidence, c: CoverageEvidence, code: Code, path: Path) {
    match e.release.coverageBinding
    case None => code == MISSING_COVERAGE_BINDING && path == Part(WholeLayer, 1)
    case Some(ids) => code == COVERAGE_IDENTITY_MISMATCH && path.IdentityAt? && !SameId(ids, c.ids, path.id)
  }

  predicate GovernanceFault(e: Evidence, c: CoverageEvidence, code: Code, path: Path) {
    match e.release.governance
    case None => code == MISSING_PACKAGE_GOVERNANCE && path == Part(WholeLayer, 2)
    case Some(g) => PackageFault(g, c, code, path)
  }

  predicate VerdictFault(e: Evidence, c: CoverageEvidence, code: Code, path: Path) {
    path.Part? && path.place.WholeLayer?
    && match path.part
       case 0 => code == INVALID_COVERAGE_REPORT && !c.contractOk
       case 4 => code == COVERAGE_IDENTITY_MISMATCH && e.suitability.eventId.Some?
                 && !(EventId in c.ids && c.ids[EventId] == e.suitability.eventId.value)
       case 5 => code == COVERAGE_BLOCKED && !c.covered
       case 6 => code == REQUIREMENT_BLOCKED && false in c.requirements
       case _ => false
  }

  predicate CoverageFault(e: Evidence, profile: Profile, code: Code, path: Path) {
    match e.coverage
    case None => profile == GovernedV1 && code == MISSING_COVERAGE_REPORT && path == Part(WholeLayer, 0)
    case Some(c) =>
      IdentityFault(e, c, code, path) || GovernanceFault(e, c, code, path) || VerdictFault(e, c, code, path)
  }

  predicate ReleaseFault(r: ReleaseEvidence, code: Code, path: Path) {
    match path
    case CheckAt(c) => code == RELEASE_CHECK_FAILED && c !in r.checks
    case CountAt(c) => if c in r.counts then code == HARD_GATE_FAILED && r.counts[c] != 0.0 else code == MISSING_METRIC
    case Part(WholeLayer, n) => code == EVALUATOR_BLOCKED && n == 0 && !r.passed
    case _ => false
  }

  /** A required metric is missing, or it is on the wrong side of its bound. */
  predicate MetricFault(ms: Metrics, ts: seq<Threshold>, code: Code, k: Metric) {
    exists t :: t in ts && t.metric == k && Missed(ms, t, code)
  }

  predicate Missed(ms: Metrics, t: Threshold, code: Code) {
    if t.metric !in ms then code == MISSING_METRIC
    else code == THRESHOLD_FAILED
         && match t.operation
            case AtLeast => ms[t.metric] < t.bound
            case AtMost => ms[t.metric] > t.bound
            case Below => ms[t.metric] >= t.bound
  }

  predicate CaseFault(c: SafetyClass, v: ClassEvidence, code: Code, n: nat) {
    || (code == MISSING_CASE_COUNT && n == 0 && v.caseCount.None?)
    || (code == INSUFFICIENT_CASES && n == 0 && v.caseCount.Some? && v.caseCount.value < 50)
    || (code == MISSING_CASE_EVIDENCE && n == 1 && v.failedCases.None?)
    || (code == CRITICAL_CASE_FAILED && n == 1 && c == Critical && v.failedCases.Some? && v.failedCases.value != [])
  }

  predicate ExactlyFault(x: Option<real>, wanted: real, code: Code) {
    if x.None? then code == MISSING_METRIC else code == HARD_GATE_FAILED && x.value != wanted
  }

  predicate SafetyFault(layer: Layer, e: SafetyEvidence, code: Code, path: Path) {
    match path
    case MetricAt(ClassOf(c), k) =>
      MetricFault(if c in e.classes then e.classes[c].metrics else map[],
                  if layer == Retrieval then RetrievalThresholds(c) else AnswerThresholds(c), code, k)
    case Part(ClassOf(c), n) => CaseFault(c, if c in e.classes then e.classes[c] else ClassEvidence(None, map[], None), code, n)
    case Part(WholeLayer, n) =>
      || (n == 0 && ExactlyFault(e.policyViolations, 0.0, code))
      || (n == 1 && code == DETERMINISM_NOT_PROVEN && e.runs != Some(3.0))
      || (n == 2 && code == DETERMINISM_NOT_PROVEN && !e.deterministic)
      || (n == 3 && layer == GroundedAnswer && ExactlyFault(e.lineage, 1.0, code))
    case _ => false
  }

  predicate ProfileFault(p: Option<EdgeProfileEvidence>, name: string, code: Code, path: Path) {
    match path
    case MetricAt(EdgeProfile(m), k) => m == name && MetricFault(if p.Some? then p.value.metrics else map[], EDGE_THRESHOLDS, code, k)
    case ProfileCheckAt(m, c) => m == name && code == PROFILE_CHECK_FAILED && (p.Some? ==> c !in p.value.passed)
    case Part(EdgeProfile(m), n) =>
      && m == name
      && (|| (code == INVALID_PROFILE && n == 0 && p.None?)
          || (code == MISSING_METRIC && n == 1 && (p.Some? ==> p.value.llmP95.None? || p.value.llmP95.value < 0.0)))
    case _ => false
  }

  predicate EdgeFault(e: EdgeEvidence, code: Code, path: Path) {
    || (e.profiles == [] && code == MISSING_PROFILES && path == Part(WholeLayer, 0))
    || exists x :: x in e.profiles && ProfileFault(x.1, x.0, code, path)
  }

  ghost predicate FaultIn(e: Evidence, profile: Profile, layer: Layer, code: Code, path: Path) {
    match layer
    case ArtifactBinding => BindingFault(e, code, path)
    case CorpusSuitability => SuitabilityFault(e, code, path)
    case CorpusCoverage => CoverageFault(e, profile, code, path)
    case ReleaseValidity => ReleaseFault(e.release, code, path)
    case Retrieval => SafetyFault(Retrieval, e.retrieval, code, path)
    case GroundedAnswer => SafetyFault(GroundedAnswer, e.answer, code, path)
    case EdgeOperation => EdgeFault(e.edge, code, path)
  }

  /** The evidence is wrong there, in this way. */
  ghost predicate Fault(e: Evidence, profile: Profile, f: Failure) {
    FaultIn(e, profile, f.layer, f.code, f.path)
  }

  // ---------------------------------------------------------------- what the layers list

  /** At most one element of `all` lists the failure: the one its place names. */
  lemma KeyedListed<S>(all: seq<S>, list: S -> seq<Failure>, f: Failure, key: Option<S>)
    requires forall x :: x in all && f in list(x) ==> key == Some(x)
    ensures f in FlatMap(all, list) <==> key.Some? && key.value in all && f in list(key.value)
  {
    FlatMapMembers(all, list, f);
  }

  lemma BindingListed(e: Evidence, f: Failure)
    ensures f in BindingFailures(e) <==> f.layer == ArtifactBinding && BindingFault(e, f.code, f.path)
  {
    var key := if f.path.BindingOf? || f.path.BindingAll? then Some(f.path.field) else None;
    forall k | f in FieldCheck(e)(k) ensures key == Some(k) {
      FieldListed(e, k, f);
    }
    KeyedListed(FIELDS, FieldCheck(e), f, key);
    if key.Some? {
      EveryField(key.value);
      FieldListed(e, key.value, f);
    }
  }

  ghost predicate FieldFault(e: Evidence, k: Field, f: Failure) {
    && f.layer == ArtifactBinding
    && ((f.path.BindingOf? && f.path.field == k && f.code == MISSING_OR_INVALID_BINDING && k !in BindingIn(e, f.path.source))
        || (f.path == BindingAll(k) && f.code == BINDING_MISMATCH && Disputed(e, k)))
  }

  lemma SourceListed(e: Evidence, k: Field, f: Failure)
    ensures f in FlatMap(SOURCES, SourceCheck(e, k)) <==>
            f.layer == ArtifactBinding && f.code == MISSING_OR_INVALID_BINDING && f.path.BindingOf? && f.path.field == k
            && k !in BindingIn(e, f.path.source)
  {
    KeyedListed(SOURCES, SourceCheck(e, k), f, if f.path.BindingOf? then Some(f.path.source) else None);
    if f.path.BindingOf? {
      EverySource(f.path.source);
    }
  }

  lemma MismatchListed(e: Evidence, k: Field, f: Failure)
    ensures f in Unless(AllEqual(Named(e, k)), Failure(ArtifactBinding, BINDING_MISMATCH, BindingAll(k))) <==>
            f == Failure(ArtifactBinding, BINDING_MISMATCH, BindingAll(k)) && Disputed(e, k)
  {
    DisputedIff(e, k);
  }

  lemma FieldListed(e: Evidence, k: Field, f: Failure)
    ensures f in FieldCheck(e)(k) <==> FieldFault(e, k, f)
  {
    SourceListed(e, k, f);
    MismatchListed(e, k, f);
    InEither(FlatMap(SOURCES, SourceCheck(e, k)),
             Unless(AllEqual(Named(e, k)), Failure(ArtifactBinding, BINDING_MISMATCH, BindingAll(k))), f);
  }

  lemma InEither(a: seq<Failure>, b: seq<Failure>, f: Failure)
    ensures f in a + b <==> f in a || f in b
  {
  }

  lemma SharedListed(e: Evidence, f: Failure)
    ensures f in FlatMap(SHARED, SharedCheck(e)) <==>
            f.layer == CorpusSuitability && f.path.SuitabilityBinding? && SuitabilityFault(e, f.code, f.path)
  {
    KeyedListed(SHARED, SharedCheck(e), f, if f.path.SuitabilityBinding? then Some(f.path.field) else None);
    if f.path.SuitabilityBinding? {
      var k := f.path.field;
      SharedMeans(k);
      if k in e.suitability.bindings {
        AloneIff(e, k, e.suitability.bindings[k]);
      }
    }
  }

  lemma SuitabilityListed(e: Evidence, f: Failure)
    ensures f in SuitabilityFailures(e) <==> f.layer == CorpusSuitability && SuitabilityFault(e, f.code, f.path)
  {
    SharedListed(e, f);
    VerdictListed(e, f);
  }

  lemma VerdictListed(e: Evidence, f: Failure)
    ensures f in VerdictFailures(e.suitability) <==>
            f.layer == CorpusSuitability && f.path.Part? && f.path.part != 4 && SuitabilityFault(e, f.code, f.path)
  {
    if e.suitability.requirements.Some? {
      AllTrueIff(e.suitability.requirements.value);
    }
  }

  lemma AllTrueIff(bs: seq<bool>)
    ensures AllTrue(bs) <==> false !in bs
  {
  }

  lemma SharedMeans(k: Field)
    ensures k in SHARED <==> Repeated(k)
  {
    assert SHARED[0] == PolicyDigest && SHARED[1] == SourceAggregateDigest && SHARED[2] == DocumentAggregateDigest
           && SHARED[3] == CaseAggregateDigest;
  }

  lemma GovernanceListed(g: PackageGovernance, c: CoverageEvidence, f: Failure)
    ensures f in FlatMap(GOVERNANCE_IDS, GovernanceCheck(g, c)) <==>
            f.layer == CorpusCoverage && f.path.GovernanceAt? && PackageFault(g, c, f.code, f.path)
  {
    KeyedListed(GOVERNANCE_IDS, GovernanceCheck(g, c), f, if f.path.GovernanceAt? then Some(f.path.id) else None);
    if f.path.GovernanceAt? {
      EveryId(f.path.id);
    }
  }

  lemma SectionListed(g: PackageGovernance, f: Failure)
    ensures f in FlatMap(SECTIONS, SectionCheck(g)) <==>
            f.layer == CorpusCoverage && f.path.SectionAt? && f.code == MISSING_OR_INVALID_BINDING && f.path.section !in g.digests
  {
    KeyedListed(SECTIONS, SectionCheck(g), f, if f.path.SectionAt? then Some(f.path.section) else None);
    if f.path.SectionAt? {
      EverySection(f.path.section);
    }
  }

  lemma PackageListed(g: PackageGovernance, c: CoverageEvidence, f: Failure)
    ensures f in PackageFailures(g, c) <==> f.layer == CorpusCoverage && PackageFault(g, c, f.code, f.path)
  {
    GovernanceListed(g, c, f);
    SectionListed(g, f);
  }

  lemma IdentityListed(expected: map<IdField, string>, c: CoverageEvidence, f: Failure)
    ensures f in FlatMap(ID_FIELDS, IdentityCheck(expected, c)) <==>
            f.layer == CorpusCoverage && f.code == COVERAGE_IDENTITY_MISMATCH && f.path.IdentityAt?
            && !SameId(expected, c.ids, f.path.id)
  {
    KeyedListed(ID_FIELDS, IdentityCheck(expected, c), f, if f.path.IdentityAt? then Some(f.path.id) else None);
    if f.path.IdentityAt? {
      EveryId(f.path.id);
    }
  }

  function IdentityPart(e: Evidence, c: CoverageEvidence): seq<Failure> {
    match e.release.coverageBinding
    case None => [Failure(CorpusCoverage, MISSING_COVERAGE_BINDING, Part(WholeLayer, 1))]
    case Some(expected) => FlatMap(ID_FIELDS, IdentityCheck(expected, c))
  }

  function PackagePart(e: Evidence, c: CoverageEvidence): seq<Failure> {
    match e.release.governance
    case None => [Failure(CorpusCoverage, MISSING_PACKAGE_GOVERNANCE, Part(WholeLayer, 2))]
    case Some(g) => PackageFailures(g, c)
  }

  function VerdictPart(e: Evidence, c: CoverageEvidence): seq<Failure> {
    Unless(c.contractOk, Failure(CorpusCoverage, INVALID_COVERAGE_REPORT, Part(WholeLayer, 0)))
    + Unless(e.suitability.eventId.None? || e.suitability.eventId == Get(c.ids, EventId),
             Failure(CorpusCoverage, COVERAGE_IDENTITY_MISMATCH, Part(WholeLayer, 4)))
    + Unless(c.covered, Failure(CorpusCoverage, COVERAGE_BLOCKED, Part(WholeLayer, 5)))
    + Unless(AllTrue(c.requirements), Failure(CorpusCoverage, REQUIREMENT_BLOCKED, Part(WholeLayer, 6)))
  }

  lemma ThreeParts(e: Evidence, c: CoverageEvidence, f: Failure)
    ensures f in CoverageFailures(e, c) <==> f in VerdictPart(e, c) || f in IdentityPart(e, c) || f in PackagePart(e, c)
  {
  }

  lemma IdentityPartListed(e: Evidence, c: CoverageEvidence, f: Failure)
    ensures f in IdentityPart(e, c) <==> f.layer == CorpusCoverage && IdentityFault(e, c, f.code, f.path)
  {
    if e.release.coverageBinding.Some? {
      IdentityListed(e.release.coverageBinding.value, c, f);
    }
  }

  lemma PackagePartListed(e: Evidence, c: CoverageEvidence, f: Failure)
    ensures f in PackagePart(e, c) <==> f.layer == CorpusCoverage && GovernanceFault(e, c, f.code, f.path)
  {
    if e.release.governance.Some? {
      PackageListed(e.release.governance.value, c, f);
    }
  }

  lemma VerdictPartListed(e: Evidence, c: CoverageEvidence, f: Failure)
    ensures f in VerdictPart(e, c) <==> f.layer == CorpusCoverage && VerdictFault(e, c, f.code, f.path)
  {
    AllTrueIff(c.requirements);
  }

  lemma CoverageListed(e: Evidence, profile: Profile, f: Failure)
    ensures f in CoveragePart(e, profile) <==> f.layer == CorpusCoverage && CoverageFault(e, profile, f.code, f.path)
  {
    if e.coverage.Some? {
      var c := e.coverage.value;
      ThreeParts(e, c, f);
      VerdictPartListed(e, c, f);
      IdentityPartListed(e, c, f);
      PackagePartListed(e, c, f);
    }
  }

  lemma ChecksListed(r: ReleaseEvidence, f: Failure)
    ensures f in FlatMap(CHECKS, ReleaseCheck(r)) <==>
            f.layer == ReleaseValidity && f.path.CheckAt? && ReleaseFault(r, f.code, f.path)
  {
    KeyedListed(CHECKS, ReleaseCheck(r), f, if f.path.CheckAt? then Some(f.path.check) else None);
    if f.path.CheckAt? {
      EveryCheck(f.path.check);
    }
  }

  lemma CountsListed(r: ReleaseEvidence, f: Failure)
    ensures f in FlatMap(COUNTS, CountCheck(r)) <==>
            f.layer == ReleaseValidity && f.path.CountAt? && ReleaseFault(r, f.code, f.path)
  {
    KeyedListed(COUNTS, CountCheck(r), f, if f.path.CountAt? then Some(f.path.count) else None);
    if f.path.CountAt? {
      EveryCount(f.path.count);
    }
  }

  lemma ReleaseListed(r: ReleaseEvidence, f: Failure)
    ensures f in ReleaseFailures(r) <==> f.layer == ReleaseValidity && ReleaseFault(r, f.code, f.path)
  {
    ChecksListed(r, f);
    CountsListed(r, f);
  }

  lemma ThresholdListed(layer: Layer, place: Place, ms: Metrics, t: Threshold, f: Failure)
    ensures f in ThresholdCheck(layer, place, ms)(t) <==>
            f.layer == layer && f.path == MetricAt(place, t.metric) && Missed(ms, t, f.code)
  {
  }

  lemma ThresholdsListed(layer: Layer, place: Place, ms: Metrics, ts: seq<Threshold>, f: Failure)
    ensures f in FlatMap(ts, ThresholdCheck(layer, place, ms)) <==>
            f.layer == layer && f.path.MetricAt? && f.path.place == place && MetricFault(ms, ts, f.code, f.path.metric)
  {
    FlatMapMembers(ts, ThresholdCheck(layer, place, ms), f);
    forall t ensures f in ThresholdCheck(layer, place, ms)(t) <==>
                     f.layer == layer && f.path == MetricAt(place, t.metric) && Missed(ms, t, f.code)
    {
      ThresholdListed(layer, place, ms, t, f);
    }
  }

  predicate AboutClass(path: Path, c: SafetyClass) {
    (path.MetricAt? || path.Part?) && path.place == ClassOf(c)
  }

  lemma CasesListed(layer: Layer, c: SafetyClass, v: ClassEvidence, f: Failure)
    ensures f in CaseCountCheck(layer, c, v) + FailedCasesCheck(layer, c, v) <==>
            f.layer == layer && f.path.Part? && f.path.place == ClassOf(c) && CaseFault(c, v, f.code, f.path.part)
  {
  }

  lemma ClassFailuresListed(layer: Layer, c: SafetyClass, v: ClassEvidence, ts: seq<Threshold>, f: Failure)
    ensures f in ClassFailures(layer, c, v, ts) <==>
            f.layer == layer && AboutClass(f.path, c)
            && if f.path.MetricAt? then MetricFault(v.metrics, ts, f.code, f.path.metric) else CaseFault(c, v, f.code, f.path.part)
  {
    ThresholdsListed(layer, ClassOf(c), v.metrics, ts, f);
    CasesListed(layer, c, v, f);
  }

  lemma ClassListed(layer: Layer, e: SafetyEvidence, c: SafetyClass, f: Failure)
    ensures f in ClassCheck(layer, e)(c) <==> f.layer == layer && AboutClass(f.path, c) && SafetyFault(layer, e, f.code, f.path)
  {
    var v, ts := ClassValues(e, c), ThresholdsFor(layer, c);
    ClassFailuresListed(layer, c, v, ts, f);
    AboutClassMeans(layer, e, c, v, ts, f.code, f.path);
  }

  lemma AboutClassMeans(layer: Layer, e: SafetyEvidence, c: SafetyClass, v: ClassEvidence, ts: seq<Threshold>, code: Code, path: Path)
    requires v == (if c in e.classes then e.classes[c] else ClassEvidence(None, map[], None))
    requires ts == if layer == Retrieval then RetrievalThresholds(c) else AnswerThresholds(c)
    ensures AboutClass(path, c) ==>
              (SafetyFault(layer, e, code, path) <==>
               if path.MetricAt? then MetricFault(v.metrics, ts, code, path.metric) else CaseFault(c, v, code, path.part))
  {
  }

  function ClassNamed(path: Path): Option<SafetyClass> {
    if (path.MetricAt? || path.Part?) && path.place.ClassOf? then Some(path.place.safety) else None
  }

  lemma ClassesListed(layer: Layer, e: SafetyEvidence, f: Failure)
    ensures f in FlatMap(CLASSES, ClassCheck(layer, e)) <==>
            f.layer == layer && ClassNamed(f.path).Some? && SafetyFault(layer, e, f.code, f.path)
  {
    var key := ClassNamed(f.path);
    forall c | f in ClassCheck(layer, e)(c) ensures key == Some(c) {
      ClassListed(layer, e, c, f);
    }
    KeyedListed(CLASSES, ClassCheck(layer, e), f, key);
    if key.Some? {
      EveryClass(key.value);
      ClassListed(layer, e, key.value, f);
    }
  }

  /** Lineage, which only answers have, is part 3 of its layer. */
  lemma SafetyListed(layer: Layer, e: SafetyEvidence, f: Failure)
    ensures f in SafetyFailures(layer, e) <==>
            f.layer == layer && SafetyFault(layer, e, f.code, f.path) && f.path != Part(WholeLayer, 3)
  {
    ClassesListed(layer, e, f);
    RestAndClasses(layer, e, f);
    RestListed(layer, e, f);
  }

  function RestOfLayer(layer: Layer, e: SafetyEvidence): seq<Failure> {
    PolicyViolations(layer, e)
    + Unless(e.runs == Some(3.0), Failure(layer, DETERMINISM_NOT_PROVEN, Part(WholeLayer, 1)))
    + Unless(e.deterministic, Failure(layer, DETERMINISM_NOT_PROVEN, Part(WholeLayer, 2)))
  }

  lemma RestAndClasses(layer: Layer, e: SafetyEvidence, f: Failure)
    ensures f in SafetyFailures(layer, e) <==> f in RestOfLayer(layer, e) || f in FlatMap(CLASSES, ClassCheck(layer, e))
  {
  }

  lemma RestListed(layer: Layer, e: SafetyEvidence, f: Failure)
    ensures f in RestOfLayer(layer, e) <==>
            f.layer == layer && f.path.Part? && f.path.place.WholeLayer? && f.path.part != 3 && SafetyFault(layer, e, f.code, f.path)
  {
  }

  lemma AnswerListed(e: SafetyEvidence, f: Failure)
    ensures f in AnswerFailures(e) <==> f.layer == GroundedAnswer && SafetyFault(GroundedAnswer, e, f.code, f.path)
  {
    SafetyListed(GroundedAnswer, e, f);
    LineageListed(e, f);
  }

  lemma LineageListed(e: SafetyEvidence, f: Failure)
    ensures f in LineageCheck(e) <==>
            f.layer == GroundedAnswer && f.path == Part(WholeLayer, 3) && SafetyFault(GroundedAnswer, e, f.code, f.path)
  {
  }

  lemma FlagsListed(name: string, p: EdgeProfileEvidence, f: Failure)
    ensures f in FlatMap(PROFILE_CHECKS, ProfileFlag(name, p)) <==>
            f.layer == EdgeOperation && f.code == PROFILE_CHECK_FAILED && f.path.ProfileCheckAt? && f.path.name == name
            && f.path.profileCheck !in p.passed
  {
    KeyedListed(PROFILE_CHECKS, ProfileFlag(name, p), f, if f.path.ProfileCheckAt? then Some(f.path.profileCheck) else None);
    if f.path.ProfileCheckAt? {
      EveryProfileCheck(f.path.profileCheck);
    }
  }

  function OwnFailures(name: string, p: Option<EdgeProfileEvidence>): seq<Failure> {
    var llm := p.GetOr(NO_PROFILE).llmP95;
    Unless(p.Some?, Failure(EdgeOperation, INVALID_PROFILE, Part(EdgeProfile(name), 0)))
    + Unless(llm.Some? && llm.value >= 0.0, Failure(EdgeOperation, MISSING_METRIC, Part(EdgeProfile(name), 1)))
  }

  lemma OwnListed(name: string, p: Option<EdgeProfileEvidence>, f: Failure)
    ensures f in OwnFailures(name, p) <==> f.layer == EdgeOperation && f.path.Part? && ProfileFault(p, name, f.code, f.path)
  {
  }

  lemma ProfileParts(x: (string, Option<EdgeProfileEvidence>), f: Failure)
    ensures var p := x.1.GetOr(NO_PROFILE);
            f in ProfileEvidenceCheck()(x) <==>
            || f in OwnFailures(x.0, x.1) || f in FlatMap(PROFILE_CHECKS, ProfileFlag(x.0, p))
            || f in FlatMap(EDGE_THRESHOLDS, ThresholdCheck(EdgeOperation, EdgeProfile(x.0), p.metrics))
  {
  }

  lemma ProfileListed(x: (string, Option<EdgeProfileEvidence>), f: Failure)
    ensures f in ProfileEvidenceCheck()(x) <==> f.layer == EdgeOperation && ProfileFault(x.1, x.0, f.code, f.path)
  {
    var p := x.1.GetOr(NO_PROFILE);
    ProfileParts(x, f);
    OwnListed(x.0, x.1, f);
    ThresholdsListed(EdgeOperation, EdgeProfile(x.0), p.metrics, EDGE_THRESHOLDS, f);
    FlagsListed(x.0, p, f);
  }

  lemma EveryProfileCheck(c: ProfileCheck)
    ensures c in PROFILE_CHECKS
  {
    assert PROFILE_CHECKS[0] == PackageVerification && PROFILE_CHECKS[1] == IndexBuild
           && PROFILE_CHECKS[2] == RestartRecovery && PROFILE_CHECKS[3] == DisconnectedSmoke;
  }

  lemma EdgeListed(e: EdgeEvidence, f: Failure)
    ensures f in EdgeFailures(e) <==> f.layer == EdgeOperation && EdgeFault(e, f.code, f.path)
  {
    SortedProfiles(e.profiles);
    FlatMapMembers(Sort(e.profiles, ByName), ProfileEvidenceCheck(), f);
    forall x ensures f in ProfileEvidenceCheck()(x) <==> f.layer == EdgeOperation && ProfileFault(x.1, x.0, f.code, f.path) {
      ProfileListed(x, f);
    }
  }

  // ---------------------------------------------------------------- the report

  lemma {:induction false} SortMembers<T>(s: seq<T>, le: (T, T) -> bool, x: T)
    ensures x in Sort(s, le) <==> x in s
  {
    if s != [] {
      SortMembers(s[..|s| - 1], le, x);
      InsertMembers(Sort(s[..|s| - 1], le), s[|s| - 1], le, x);
      assert s == s[..|s| - 1] + [s[|s| - 1]];
    }
  }

  lemma {:induction false} InsertMembers<T>(s: seq<T>, y: T, le: (T, T) -> bool, x: T)
    ensures x in Insert(s, y, le) <==> x in s || x == y
  {
    if s != [] && !le(s[|s| - 1], y) {
      InsertMembers(s[..|s| - 1], y, le, x);
      assert s == s[..|s| - 1] + [s[|s| - 1]];
    }
  }

  predicate InPart(p: Parts, layer: Layer, f: Failure) {
    match layer
    case ArtifactBinding => f in p.binding
    case CorpusSuitability => f in p.suitability
    case CorpusCoverage => f in p.coverage
    case ReleaseValidity => f in p.release
    case Retrieval => f in p.retrieval
    case GroundedAnswer => f in p.answer
    case EdgeOperation => f in p.edge
  }

  lemma AnyPart(p: Parts, f: Failure, faulty: bool)
    requires forall layer: Layer :: InPart(p, layer, f) <==> f.layer == layer && faulty
    ensures f in AllFailures(p) <==> faulty
  {
    assert InPart(p, ArtifactBinding, f) == (f in p.binding) && InPart(p, CorpusSuitability, f) == (f in p.suitability)
           && InPart(p, CorpusCoverage, f) == (f in p.coverage) && InPart(p, ReleaseValidity, f) == (f in p.release)
           && InPart(p, Retrieval, f) == (f in p.retrieval) && InPart(p, GroundedAnswer, f) == (f in p.answer)
           && InPart(p, EdgeOperation, f) == (f in p.edge);
  }

  ghost predicate Lists(e: Evidence, profile: Profile, p: Parts, layer: Layer, f: Failure) {
    InPart(p, layer, f) <==> f.layer == layer && FaultIn(e, profile, layer, f.code, f.path)
  }

  ghost predicate AreLists(e: Evidence, profile: Profile, p: Parts, f: Failure, lists: Layer -> bool) {
    forall layer: Layer {:trigger Lists(e, profile, p, layer, f)} :: Lists(e, profile, p, layer, f) ==> lists(layer)
  }

  lemma BindingPartListed(e: Evidence, profile: Profile, p: Parts, f: Failure, lists: Layer -> bool)
    requires p.binding == BindingFailures(e) && AreLists(e, profile, p, f, lists)
    ensures lists(ArtifactBinding)
  {
    BindingListed(e, f);
    assert Lists(e, profile, p, ArtifactBinding, f);
  }

  lemma SuitabilityPartListed(e: Evidence, profile: Profile, p: Parts, f: Failure, lists: Layer -> bool)
    requires p.suitability == SuitabilityFailures(e) && AreLists(e, profile, p, f, lists)
    ensures lists(CorpusSuitability)
  {
    SuitabilityListed(e, f);
    assert Lists(e, profile, p, CorpusSuitability, f);
  }

  lemma CoveragePartListed(e: Evidence, profile: Profile, p: Parts, f: Failure, lists: Layer -> bool)
    requires p.coverage == CoveragePart(e, profile) && AreLists(e, profile, p, f, lists)
    ensures lists(CorpusCoverage)
  {
    CoverageListed(e, profile, f);
    assert Lists(e, profile, p, CorpusCoverage, f);
  }

  lemma ReleasePartListed(e: Evidence, profile: Profile, p: Parts, f: Failure, lists: Layer -> bool)
    requires p.release == ReleaseFailures(e.release) && AreLists(e, profile, p, f, lists)
    ensures lists(ReleaseValidity)
  {
    ReleaseListed(e.release, f);
    assert Lists(e, profile, p, ReleaseValidity, f);
  }

  lemma RetrievalInPart(e: Evidence, p: Parts, f: Failure)
    requires p.retrieval == SafetyFailures(Retrieval, e.retrieval)
    ensures f in p.retrieval <==> f.layer == Retrieval && SafetyFault(Retrieval, e.retrieval, f.code, f.path)
  {
    SafetyListed(Retrieval, e.retrieval, f);
  }

  lemma RetrievalLists(e: Evidence, profile: Profile, p: Parts, f: Failure, faulty: bool)
    requires faulty == SafetyFault(Retrieval, e.retrieval, f.code, f.path) && (f in p.retrieval <==> f.layer == Retrieval && faulty)
    ensures Lists(e, profile, p, Retrieval, f)
  {
  }

  lemma AnswerInPart(e: Evidence, p: Parts, f: Failure)
    requires p.answer == AnswerFailures(e.answer)
    ensures f in p.answer <==> f.layer == GroundedAnswer && SafetyFault(GroundedAnswer, e.answer, f.code, f.path)
  {
    AnswerListed(e.answer, f);
  }

  lemma AnswerLists(e: Evidence, profile: Profile, p: Parts, f: Failure, faulty: bool)
    requires faulty == SafetyFault(GroundedAnswer, e.answer, f.code, f.path) && (f in p.answer <==> f.layer == GroundedAnswer && faulty)
    ensures Lists(e, profile, p, GroundedAnswer, f)
  {
  }

  lemma RetrievalPartListed(e: Evidence, profile: Profile, p: Parts, f: Failure, lists: Layer -> bool)
    requires p.retrieval == SafetyFailures(Retrieval, e.retrieval) && AreLists(e, profile, p, f, lists)
    ensures lists(Retrieval)
  {
    RetrievalInPart(e, p, f);
    RetrievalLists(e, profile, p, f, SafetyFault(Retrieval, e.retrieval, f.code, f.path));
  }

  lemma AnswerPartListed(e: Evidence, profile: Profile, p: Parts, f: Failure, lists: Layer -> bool)
    requires p.answer == AnswerFailures(e.answer) && AreLists(e, profile, p, f, lists)
    ensures lists(GroundedAnswer)
  {
    AnswerInPart(e, p, f);
    AnswerLists(e, profile, p, f, SafetyFault(GroundedAnswer, e.answer, f.code, f.path));
  }

  lemma EdgePartListed(e: Evidence, profile: Profile, p: Parts, f: Failure, lists: Layer -> bool)
    requires p.edge == EdgeFailures(e.edge) && AreLists(e, profile, p, f, lists)
    ensures lists(EdgeOperation)
  {
    EdgeListed(e.edge, f);
    assert Lists(e, profile, p, EdgeOperation, f);
  }

  lemma PartsListed(e: Evidence, profile: Profile, p: Parts, f: Failure, lists: Layer -> bool)
    requires p == PartsOf(e, profile) && AreLists(e, profile, p, f, lists)
    ensures forall layer: Layer :: lists(layer)
  {
    BindingPartListed(e, profile, p, f, lists);
    SuitabilityPartListed(e, profile, p, f, lists);
    CoveragePartListed(e, profile, p, f, lists);
    ReleasePartListed(e, profile, p, f, lists);
    RetrievalPartListed(e, profile, p, f, lists);
    AnswerPartListed(e, profile, p, f, lists);
    EdgePartListed(e, profile, p, f, lists);
    forall layer: Layer ensures lists(layer) {
      match layer {
        case ArtifactBinding =>
        case CorpusSuitability =>
        case CorpusCoverage =>
        case ReleaseValidity =>
        case Retrieval =>
        case GroundedAnswer =>
        case EdgeOperation =>
      }
    }
  }

  lemma AllPartsListed(e: Evidence, profile: Profile, p: Parts, f: Failure, faulty: bool)
    requires p == PartsOf(e, profile) && faulty == Fault(e, profile, f)
    ensures f in AllFailures(p) <==> faulty
  {
    var lists := (layer: Layer) => Lists(e, profile, p, layer, f);
    PartsListed(e, profile, p, f, lists);
    forall layer: Layer ensures InPart(p, layer, f) <==> f.layer == layer && faulty {
      assert lists(layer);
    }
    AnyPart(p, f, faulty);
  }

  lemma ReportLists(e: Evidence, profile: Profile, order: Order, f: Failure)
    ensures f in Promoted(e, profile, order).body.failures <==> f in AllFailures(PartsOf(e, profile))
  {
    SortMembers(AllFailures(PartsOf(e, profile)), order, f);
  }

  /** The report lists a failure exactly when the evidence has that fault: nothing is left out, nothing made up. */
  lemma FailureListedIff(e: Evidence, profile: Profile, order: Order, f: Failure)
    ensures f in Promoted(e, profile, order).body.failures <==> Fault(e, profile, f)
  {
    ReportLists(e, profile, order, f);
    AllPartsListed(e, profile, PartsOf(e, profile), f, Fault(e, profile, f));
  }

  /** The failures are listed in the given order, each as often as the layers found it. */
  lemma ReportIsOrdered(e: Evidence, profile: Profile, order: Order)
    requires Preorder(order)
    ensures Sorted(Promoted(e, profile, order).body.failures, order)
    ensures Permutation(Promoted(e, profile, order).body.failures, AllFailures(PartsOf(e, profile)))
  {
    SortSorts(AllFailures(PartsOf(e, profile)), order);
  }
}
