/**
 The promotion gate. Every layer appends what is wrong to one list of failures, and the decision is PASS
 when the list is empty. `...Failures` is the list a layer appends; `...Gate` is what the layer demands.
 */
module Promotion {
  import opened Prelude
  import opened Crypto
  import opened Sorting
  import opened Safety

  /** Bytes that a digest is taken of. */
  type Blob = seq<int>

  datatype Profile = GovernedV1 | LegacyV1

  datatype Field =
    | ReleaseDigest | CorpusDigest | EvalSetDigest | ModelDigest | EmbeddingModelDigest | ChunkerDigest
    | PolicyDigest | SourceAggregateDigest | DocumentAggregateDigest | CaseAggregateDigest

  datatype Layer =
    | ArtifactBinding | CorpusSuitability | CorpusCoverage | ReleaseValidity | Retrieval | GroundedAnswer | EdgeOperation

  datatype Source = FromRelease | FromRetrieval | FromAnswer | FromEdge

  datatype Metric =
    | RecallAt3 | EvidenceCoverageAt5 | Mrr | ScopeAccuracy | ForbiddenContextRate
    | GroundedPassRate | ClaimPrecision | CitationPrecision | CitationRecall | NoAnswerRecall | StaleRefusalRecall
    | CriticalEntityPreservation | UnsupportedClaimRate
    | OomKills | Evictions | CorruptIndexes | FailedReadiness | StorageHeadroom | MemoryHeadroom | RetrievalErrorRate
    | AnswerErrorRate | WarmP95 | WarmP99 | CriticalRagP95

  datatype Operation = AtLeast | AtMost | Below

  datatype Threshold = Threshold(metric: Metric, operation: Operation, bound: real)

  datatype Check = Schema | Lineage | Scope | Freshness | Conflicts | Licenses | Approvals | Hashes | Signatures | Completeness

  datatype HardCount = UnresolvedConflicts | UnapprovedDocuments | ReleasePolicyViolations | SecurityFailures

  datatype ProfileCheck = PackageVerification | IndexBuild | RestartRecovery | DisconnectedSmoke

  datatype IdField = SchemaVersionId | ReportId | MissionProfileId | EventId | RegistryId

  datatype Section = MissionProfileSection | SourceRegistrySection | CoverageReportSection | LineageManifestSection

  datatype Code =
    | MISSING_OR_INVALID_BINDING | BINDING_MISMATCH | RELEASE_CHECK_FAILED | MISSING_METRIC | HARD_GATE_FAILED
    | EVALUATOR_BLOCKED | INVALID_REPORT_ID | SUITABILITY_FAILURES | REQUIREMENT_BLOCKED | SUITABILITY_BLOCKED
    | MISSING_COVERAGE_REPORT | INVALID_COVERAGE_REPORT | MISSING_COVERAGE_BINDING | COVERAGE_IDENTITY_MISMATCH
    | MISSING_PACKAGE_GOVERNANCE | PROFILE_MISMATCH | COVERAGE_DIGEST_MISMATCH | COVERAGE_BLOCKED | THRESHOLD_FAILED
    | MISSING_CASE_COUNT | INSUFFICIENT_CASES | MISSING_CASE_EVIDENCE | CRITICAL_CASE_FAILED | DETERMINISM_NOT_PROVEN
    | MISSING_PROFILES | INVALID_PROFILE | PROFILE_CHECK_FAILED

  /** Where in the evidence a failure lies. */
  datatype Path =
    | BindingOf(source: Source, field: Field) | BindingAll(field: Field) | SuitabilityBinding(field: Field)
    | CheckAt(check: Check) | CountAt(count: HardCount) | MetricAt(place: Place, metric: Metric)
    | IdentityAt(id: IdField) | GovernanceAt(id: IdField) | SectionAt(section: Section)
    | ProfileCheckAt(name: string, profileCheck: ProfileCheck) | Part(place: Place, part: nat)

  datatype Place = WholeLayer | ClassOf(safety: SafetyClass) | EdgeProfile(name: string)

  datatype Failure = Failure(layer: Layer, code: Code, path: Path)

  const FIELDS: seq<Field> := [ReleaseDigest, CorpusDigest, EvalSetDigest, ModelDigest, EmbeddingModelDigest,
    ChunkerDigest, PolicyDigest, SourceAggregateDigest, DocumentAggregateDigest, CaseAggregateDigest]
  const SOURCES: seq<Source> := [FromRelease, FromRetrieval, FromAnswer, FromEdge]
  const CLASSES: seq<SafetyClass> := [Critical, High, Standard, Advisory]
  const CHECKS: seq<Check> := [Schema, Lineage, Scope, Freshness, Conflicts, Licenses, Approvals, Hashes, Signatures, Completeness]
  const COUNTS: seq<HardCount> := [UnresolvedConflicts, UnapprovedDocuments, ReleasePolicyViolations, SecurityFailures]
  const PROFILE_CHECKS: seq<ProfileCheck> := [PackageVerification, IndexBuild, RestartRecovery, DisconnectedSmoke]
  const ID_FIELDS: seq<IdField> := [SchemaVersionId, ReportId, MissionProfileId, EventId, RegistryId]
  const GOVERNANCE_IDS: seq<IdField> := [EventId, MissionProfileId, RegistryId, ReportId]
  const SECTIONS: seq<Section> := [MissionProfileSection, SourceRegistrySection, CoverageReportSection, LineageManifestSection]
  /** The bindings that suitability evidence must repeat. */
  const SHARED: seq<Field> := [PolicyDigest, SourceAggregateDigest, DocumentAggregateDigest, CaseAggregateDigest]

  function RetrievalThresholds(c: SafetyClass): seq<Threshold> {
    var (forbid, scope, mrr, recall, coverage) := match c
      case Critical => (0.0, 1.0, 0.95, 1.0, 1.0)
      case High => (0.0, 1.0, 0.90, 0.99, 0.99)
      case Standard => (0.0, 0.995, 0.85, 0.97, 0.98)
      case Advisory => (0.0, 0.99, 0.80, 0.95, 0.95);
    [Threshold(ForbiddenContextRate, AtMost, forbid), Threshold(Mrr, AtLeast, mrr), Threshold(RecallAt3, AtLeast, recall),
     Threshold(EvidenceCoverageAt5, AtLeast, coverage), Threshold(ScopeAccuracy, AtLeast, scope)]
  }

  function AnswerThresholds(c: SafetyClass): seq<Threshold> {
    var (citation, recall, claim, grounded, noAnswer, unsupported) := match c
      case Critical => (1.0, 1.0, 1.0, 1.0, 1.0, 0.0)
      case High => (0.995, 0.99, 0.995, 0.99, 0.995, 0.005)
      case Standard => (0.99, 0.98, 0.99, 0.97, 0.98, 0.01)
      case Advisory => (0.98, 0.95, 0.98, 0.95, 0.97, 0.02);
    [Threshold(CitationPrecision, AtLeast, citation), Threshold(CitationRecall, AtLeast, recall),
     Threshold(ClaimPrecision, AtLeast, claim)]
    + (if c == Critical then [Threshold(CriticalEntityPreservation, AtLeast, 1.0)] else [])
    + [Threshold(GroundedPassRate, AtLeast, grounded), Threshold(NoAnswerRecall, AtLeast, noAnswer),
       Threshold(StaleRefusalRecall, AtLeast, 1.0), Threshold(UnsupportedClaimRate, AtMost, unsupported)]
  }

  const EDGE_THRESHOLDS: seq<Threshold> := [
    Threshold(CorruptIndexes, AtMost, 0.0), Threshold(CriticalRagP95, AtMost, 2000.0), Threshold(Evictions, AtMost, 0.0),
    Threshold(FailedReadiness, AtMost, 0.0), Threshold(AnswerErrorRate, Below, 0.005),
    Threshold(MemoryHeadroom, AtLeast, 0.15), Threshold(OomKills, AtMost, 0.0), Threshold(RetrievalErrorRate, AtMost, 0.0),
    Threshold(StorageHeadroom, AtLeast, 0.20), Threshold(WarmP95, AtMost, 750.0), Threshold(WarmP99, AtMost, 1500.0)]

  // ---------------------------------------------------------------- evidence

  /** The valid digests of a piece of evidence; a missing or malformed one has no entry. */
  type Binding = map<Field, Digest<Blob>>

  /** The finite numbers of a piece of evidence; anything else has no entry. */
  type Metrics = map<Metric, real>

  datatype ClassEvidence = ClassEvidence(caseCount: Option<int>, metrics: Metrics, failedCases: Option<seq<string>>)

  const NO_CLASS := ClassEvidence(None, map[], None)

  datatype SafetyEvidence = SafetyEvidence(
    binding: Binding, policyViolations: Option<real>, classes: map<SafetyClass, ClassEvidence>, runs: Option<real>,
    deterministic: bool, lineage: Option<real>)

  datatype EdgeProfileEvidence = EdgeProfileEvidence(metrics: Metrics, passed: set<ProfileCheck>, llmP95: Option<real>)

  const NO_PROFILE := EdgeProfileEvidence(map[], {}, None)

  /** A profile that is no object at all is `None`. */
  datatype EdgeEvidence = EdgeEvidence(binding: Binding, profiles: seq<(string, Option<EdgeProfileEvidence>)>)

  datatype Suitability = Suitability(
    reportIdOk: bool, failures: Option<nat>, requirements: Option<seq<bool>>, passed: bool, bindings: Binding,
    recordDigestOk: bool, eventId: Option<string>)

  /** `contractOk`: the coverage report passes its own schema and semantic rules. */
  datatype CoverageEvidence = CoverageEvidence(
    contractOk: bool, ids: map<IdField, string>, covered: bool, requirements: seq<bool>)

  datatype PackageGovernance = PackageGovernance(
    governed: bool, ids: map<IdField, string>, digests: map<Section, Digest<CoverageEvidence>>, lineageDigestOk: bool)

  datatype ReleaseEvidence = ReleaseEvidence(
    binding: Binding, checks: set<Check>, counts: map<HardCount, real>, passed: bool,
    coverageBinding: Option<map<IdField, string>>, governance: Option<PackageGovernance>)

  datatype Evidence = Evidence(
    release: ReleaseEvidence, retrieval: SafetyEvidence, answer: SafetyEvidence, edge: EdgeEvidence,
    suitability: Suitability, coverage: Option<CoverageEvidence>)

  function Get<K, V>(m: map<K, V>, k: K): Option<V> {
    if k in m then Some(m[k]) else None
  }

  function BindingFrom(e: Evidence, s: Source): Binding {
    match s
    case FromRelease => e.release.binding
    case FromRetrieval => e.retrieval.binding
    case FromAnswer => e.answer.binding
    case FromEdge => e.edge.binding
  }

  // ---------------------------------------------------------------- lists of failures

  function Unless(ok: bool, f: Failure): (r: seq<Failure>)
    ensures r == [] <==> ok
  {
    if ok then [] else [f]
  }

  method Require(ok: bool, f: Failure, failures: seq<Failure>) returns (all: seq<Failure>)
    ensures all == failures + Unless(ok, f)
  {
    all := if ok then failures else failures + [f];
  }

  // ---------------------------------------------------------------- bindings

  /** The valid digest a source names for the field. */
  function NamedBy(e: Evidence, field: Field): Source -> seq<Digest<Blob>> {
    s => if field in BindingFrom(e, s) then [BindingFrom(e, s)[field]] else []
  }

  /** The valid digests the sources name for a field. */
  function Named(e: Evidence, field: Field): seq<Digest<Blob>> {
    FlatMap(SOURCES, NamedBy(e, field))
  }

  predicate AllEqual(ds: seq<Digest<Blob>>) {
    forall d :: d in ds ==> d == ds[0]
  }

  function SourceCheck(e: Evidence, field: Field): Source -> seq<Failure> {
    s => Unless(field in BindingFrom(e, s), Failure(ArtifactBinding, MISSING_OR_INVALID_BINDING, BindingOf(s, field)))
  }

  function FieldCheck(e: Evidence): Field -> seq<Failure> {
    field => FlatMap(SOURCES, SourceCheck(e, field))
             + Unless(AllEqual(Named(e, field)), Failure(ArtifactBinding, BINDING_MISMATCH, BindingAll(field)))
  }

  function BindingFailures(e: Evidence): seq<Failure> {
    FlatMap(FIELDS, FieldCheck(e))
  }

  /** The one digest the evidence names for the field. */
  function Resolved(e: Evidence, field: Field): Option<Digest<Blob>> {
    var ds := Named(e, field);
    if ds != [] && AllEqual(ds) then Some(ds[0]) else None
  }

  /** Every source names the digest, and all the same one. */
  predicate Bound(e: Evidence, field: Field, d: Digest<Blob>) {
    forall s :: s in SOURCES ==> Get(BindingFrom(e, s), field) == Some(d)
  }

  // ---------------------------------------------------------------- suitability

  function SharedCheck(e: Evidence): Field -> seq<Failure> {
    field =>
      if field !in e.suitability.bindings
      then [Failure(CorpusSuitability, MISSING_OR_INVALID_BINDING, SuitabilityBinding(field))]
      else Unless(Some(e.suitability.bindings[field]) == Resolved(e, field),
                  Failure(CorpusSuitability, BINDING_MISMATCH, SuitabilityBinding(field)))
  }

  predicate AllTrue(bs: seq<bool>) {
    forall i :: 0 <= i < |bs| ==> bs[i]
  }

  predicate RequirementsOk(s: Suitability) {
    s.requirements.Some? && s.requirements.value != [] && AllTrue(s.requirements.value)
  }

  function VerdictFailures(s: Suitability): seq<Failure> {
    Unless(s.reportIdOk, Failure(CorpusSuitability, INVALID_REPORT_ID, Part(WholeLayer, 0)))
    + Unless(s.failures == Some(0), Failure(CorpusSuitability, SUITABILITY_FAILURES, Part(WholeLayer, 1)))
    + Unless(RequirementsOk(s), Failure(CorpusSuitability, REQUIREMENT_BLOCKED, Part(WholeLayer, 2)))
    + Unless(s.passed, Failure(CorpusSuitability, SUITABILITY_BLOCKED, Part(WholeLayer, 3)))
  }

  function SuitabilityFailures(e: Evidence): seq<Failure> {
    VerdictFailures(e.suitability) + FlatMap(SHARED, SharedCheck(e))
    + Unless(e.suitability.recordDigestOk, Failure(CorpusSuitability, MISSING_OR_INVALID_BINDING, Part(WholeLayer, 4)))
  }

  predicate SuitabilityGate(e: Evidence) {
    var s := e.suitability;
    && s.reportIdOk && s.failures == Some(0) && s.passed && s.recordDigestOk
    && RequirementsOk(s)
    && forall f :: f in SHARED ==> f in s.bindings && Some(s.bindings[f]) == Resolved(e, f)
  }

  // ---------------------------------------------------------------- coverage

  function IdentityCheck(expected: map<IdField, string>, c: CoverageEvidence): IdField -> seq<Failure> {
    id => Unless(Get(expected, id) == Get(c.ids, id), Failure(CorpusCoverage, COVERAGE_IDENTITY_MISMATCH, IdentityAt(id)))
  }

  function GovernanceCheck(g: PackageGovernance, c: CoverageEvidence): IdField -> seq<Failure> {
    id => Unless(Get(g.ids, id) == Get(c.ids, id), Failure(CorpusCoverage, COVERAGE_IDENTITY_MISMATCH, GovernanceAt(id)))
  }

  function SectionCheck(g: PackageGovernance): Section -> seq<Failure> {
    section => Unless(section in g.digests, Failure(CorpusCoverage, MISSING_OR_INVALID_BINDING, SectionAt(section)))
  }

  function PackageFailures(g: PackageGovernance, c: CoverageEvidence): seq<Failure> {
    Unless(g.governed, Failure(CorpusCoverage, PROFILE_MISMATCH, Part(WholeLayer, 2)))
    + FlatMap(GOVERNANCE_IDS, GovernanceCheck(g, c))
    + FlatMap(SECTIONS, SectionCheck(g))
    + Unless(Get(g.digests, CoverageReportSection) == Some(Sha256(c)),
             Failure(CorpusCoverage, COVERAGE_DIGEST_MISMATCH, SectionAt(CoverageReportSection)))
    + Unless(g.lineageDigestOk, Failure(CorpusCoverage, MISSING_OR_INVALID_BINDING, Part(WholeLayer, 3)))
  }

  function CoverageFailures(e: Evidence, c: CoverageEvidence): seq<Failure> {
    Unless(c.contractOk, Failure(CorpusCoverage, INVALID_COVERAGE_REPORT, Part(WholeLayer, 0)))
    + (match e.release.coverageBinding
       case None => [Failure(CorpusCoverage, MISSING_COVERAGE_BINDING, Part(WholeLayer, 1))]
       case Some(expected) => FlatMap(ID_FIELDS, IdentityCheck(expected, c)))
    + (match e.release.governance
       case None => [Failure(CorpusCoverage, MISSING_PACKAGE_GOVERNANCE, Part(WholeLayer, 2))]
       case Some(g) => PackageFailures(g, c))
    + Unless(e.suitability.eventId.None? || e.suitability.eventId == Get(c.ids, EventId),
             Failure(CorpusCoverage, COVERAGE_IDENTITY_MISMATCH, Part(WholeLayer, 4)))
    + Unless(c.covered, Failure(CorpusCoverage, COVERAGE_BLOCKED, Part(WholeLayer, 5)))
    + Unless(AllTrue(c.requirements), Failure(CorpusCoverage, REQUIREMENT_BLOCKED, Part(WholeLayer, 6)))
  }

  /** The signed package names exactly this report. */
  predicate PackageGate(g: PackageGovernance, c: CoverageEvidence) {
    && g.governed && g.lineageDigestOk
    && (forall id :: id in GOVERNANCE_IDS ==> Get(g.ids, id) == Get(c.ids, id))
    && (forall s :: s in SECTIONS ==> s in g.digests)
    && Get(g.digests, CoverageReportSection) == Some(Sha256(c))
  }

  /** The release evidence names exactly this report. */
  predicate IdentityGate(expected: map<IdField, string>, c: CoverageEvidence) {
    forall id :: id in ID_FIELDS ==> Get(expected, id) == Get(c.ids, id)
  }

  /** The release evidence, the signed package and the suitability evidence name exactly this report. */
  predicate NamedEverywhere(e: Evidence, c: CoverageEvidence) {
    && e.release.coverageBinding.Some? && IdentityGate(e.release.coverageBinding.value, c)
    && e.release.governance.Some? && PackageGate(e.release.governance.value, c)
    && (e.suitability.eventId.Some? ==> e.suitability.eventId == Get(c.ids, EventId))
  }

  /** The coverage report is sound, covered and named. */
  predicate CoverageGate(e: Evidence, c: CoverageEvidence) {
    c.contractOk && c.covered && AllTrue(c.requirements) && NamedEverywhere(e, c)
  }

  // ---------------------------------------------------------------- release validity

  function ReleaseCheck(r: ReleaseEvidence): Check -> seq<Failure> {
    c => Unless(c in r.checks, Failure(ReleaseValidity, RELEASE_CHECK_FAILED, CheckAt(c)))
  }

  function CountCheck(r: ReleaseEvidence): HardCount -> seq<Failure> {
    c => if c !in r.counts then [Failure(ReleaseValidity, MISSING_METRIC, CountAt(c))]
         else Unless(r.counts[c] == 0.0, Failure(ReleaseValidity, HARD_GATE_FAILED, CountAt(c)))
  }

  function ReleaseFailures(r: ReleaseEvidence): seq<Failure> {
    FlatMap(CHECKS, ReleaseCheck(r)) + FlatMap(COUNTS, CountCheck(r))
    + Unless(r.passed, Failure(ReleaseValidity, EVALUATOR_BLOCKED, Part(WholeLayer, 0)))
  }

  predicate ReleaseGate(r: ReleaseEvidence) {
    && (forall c :: c in CHECKS ==> c in r.checks)
    && (forall c :: c in COUNTS ==> c in r.counts && r.counts[c] == 0.0)
    && r.passed
  }

  // ---------------------------------------------------------------- thresholds and safety classes

  predicate Passes(metrics: Metrics, t: Threshold) {
    && t.metric in metrics
    && match t.operation
       case AtLeast => metrics[t.metric] >= t.bound
       case AtMost => metrics[t.metric] <= t.bound
       case Below => metrics[t.metric] < t.bound
  }

  function ThresholdCheck(layer: Layer, place: Place, metrics: Metrics): Threshold -> seq<Failure> {
    (t: Threshold) => if t.metric !in metrics then [Failure(layer, MISSING_METRIC, MetricAt(place, t.metric))]
         else Unless(Passes(metrics, t), Failure(layer, THRESHOLD_FAILED, MetricAt(place, t.metric)))
  }

  function ClassValues(e: SafetyEvidence, c: SafetyClass): ClassEvidence {
    if c in e.classes then e.classes[c] else NO_CLASS
  }

  function ThresholdsFor(layer: Layer, c: SafetyClass): seq<Threshold> {
    if layer == Retrieval then RetrievalThresholds(c) else AnswerThresholds(c)
  }

  function CaseCountCheck(layer: Layer, c: SafetyClass, v: ClassEvidence): seq<Failure> {
    if v.caseCount.None? then [Failure(layer, MISSING_CASE_COUNT, Part(ClassOf(c), 0))]
    else Unless(v.caseCount.value >= 50, Failure(layer, INSUFFICIENT_CASES, Part(ClassOf(c), 0)))
  }

  function FailedCasesCheck(layer: Layer, c: SafetyClass, v: ClassEvidence): seq<Failure> {
    if v.failedCases.None? then [Failure(layer, MISSING_CASE_EVIDENCE, Part(ClassOf(c), 1))]
    else Unless(c != Critical || v.failedCases.value == [], Failure(layer, CRITICAL_CASE_FAILED, Part(ClassOf(c), 1)))
  }

  function ClassFailures(layer: Layer, c: SafetyClass, v: ClassEvidence, ts: seq<Threshold>): seq<Failure> {
    CaseCountCheck(layer, c, v) + FlatMap(ts, ThresholdCheck(layer, ClassOf(c), v.metrics)) + FailedCasesCheck(layer, c, v)
  }

  function ClassCheck(layer: Layer, e: SafetyEvidence): SafetyClass -> seq<Failure> {
    c => ClassFailures(layer, c, ClassValues(e, c), ThresholdsFor(layer, c))
  }

  function PolicyViolations(layer: Layer, e: SafetyEvidence): seq<Failure> {
    if e.policyViolations.None? then [Failure(layer, MISSING_METRIC, Part(WholeLayer, 0))]
    else Unless(e.policyViolations.value == 0.0, Failure(layer, HARD_GATE_FAILED, Part(WholeLayer, 0)))
  }

  function SafetyFailures(layer: Layer, e: SafetyEvidence): seq<Failure> {
    PolicyViolations(layer, e)
    + FlatMap(CLASSES, ClassCheck(layer, e))
    + Unless(e.runs == Some(3.0), Failure(layer, DETERMINISM_NOT_PROVEN, Part(WholeLayer, 1)))
    + Unless(e.deterministic, Failure(layer, DETERMINISM_NOT_PROVEN, Part(WholeLayer, 2)))
  }

  function LineageCheck(e: SafetyEvidence): seq<Failure> {
    if e.lineage.None? then [Failure(GroundedAnswer, MISSING_METRIC, Part(WholeLayer, 3))]
    else Unless(e.lineage.value == 1.0, Failure(GroundedAnswer, HARD_GATE_FAILED, Part(WholeLayer, 3)))
  }

  function AnswerFailures(e: SafetyEvidence): seq<Failure> {
    SafetyFailures(GroundedAnswer, e) + LineageCheck(e)
  }

  predicate MeetsAll(v: ClassEvidence, critical: bool, ts: seq<Threshold>) {
    && v.caseCount.Some? && v.caseCount.value >= 50
    && (forall t :: t in ts ==> Passes(v.metrics, t))
    && v.failedCases.Some? && (critical ==> v.failedCases.value == [])
  }

  /** Every class has at least 50 cases and meets each of its own thresholds: nothing is averaged. */
  predicate ClassGate(layer: Layer, e: SafetyEvidence, c: SafetyClass) {
    MeetsAll(ClassValues(e, c), c == Critical, ThresholdsFor(layer, c))
  }

  predicate SafetyGate(layer: Layer, e: SafetyEvidence) {
    && e.policyViolations == Some(0.0) && e.runs == Some(3.0) && e.deterministic
    && forall c :: c in CLASSES ==> ClassGate(layer, e, c)
  }

  predicate AnswerGate(e: SafetyEvidence) {
    SafetyGate(GroundedAnswer, e) && e.lineage == Some(1.0)
  }

  // ---------------------------------------------------------------- edge profiles

  function ProfileFlag(name: string, p: EdgeProfileEvidence): ProfileCheck -> seq<Failure> {
    c => Unless(c in p.passed, Failure(EdgeOperation, PROFILE_CHECK_FAILED, ProfileCheckAt(name, c)))
  }

  function ProfileEvidenceCheck(): ((string, Option<EdgeProfileEvidence>)) -> seq<Failure> {
    (x: (string, Option<EdgeProfileEvidence>)) =>
      var p := x.1.GetOr(NO_PROFILE);
      Unless(x.1.Some?, Failure(EdgeOperation, INVALID_PROFILE, Part(EdgeProfile(x.0), 0)))
      + FlatMap(EDGE_THRESHOLDS, ThresholdCheck(EdgeOperation, EdgeProfile(x.0), p.metrics))
      + FlatMap(PROFILE_CHECKS, ProfileFlag(x.0, p))
      + Unless(p.llmP95.Some? && p.llmP95.value >= 0.0, Failure(EdgeOperation, MISSING_METRIC, Part(EdgeProfile(x.0), 1)))
  }

  predicate ByName(a: (string, Option<EdgeProfileEvidence>), b: (string, Option<EdgeProfileEvidence>)) {
    StringLe(a.0, b.0)
  }

  function EdgeFailures(e: EdgeEvidence): seq<Failure> {
    Unless(e.profiles != [], Failure(EdgeOperation, MISSING_PROFILES, Part(WholeLayer, 0)))
    + FlatMap(Sort(e.profiles, ByName), ProfileEvidenceCheck())
  }

  predicate ProfileGate(p: Option<EdgeProfileEvidence>) {
    && p.Some?
    && (forall t :: t in EDGE_THRESHOLDS ==> Passes(p.value.metrics, t))
    && (forall c :: c in PROFILE_CHECKS ==> c in p.value.passed)
    && p.value.llmP95.Some? && p.value.llmP95.value >= 0.0
  }

  predicate EdgeGate(e: EdgeEvidence) {
    e.profiles != [] && forall x :: x in e.profiles ==> ProfileGate(x.1)
  }

  // ---------------------------------------------------------------- the report

  datatype Decision = PASS | FAIL

  /** Which layers passed; coverage is a layer only when it was asked for. */
  datatype Layers = Layers(
    suitability: bool, coverage: Option<bool>, release: bool, retrieval: bool, answer: bool, edge: bool)

  datatype ReportBody = ReportBody(
    profile: Profile, binding: map<Field, Option<Digest<Blob>>>, layers: Layers, failures: seq<Failure>,
    decision: Decision)

  datatype Report = Report(id: Digest<ReportBody>, body: ReportBody)

  /** The order in which the report lists its failures. */
  type Order = (Failure, Failure) -> bool

  function MissingCoverage(): Failure {
    Failure(CorpusCoverage, MISSING_COVERAGE_REPORT, Part(WholeLayer, 0))
  }

  function CoveragePart(e: Evidence, profile: Profile): seq<Failure> {
    if e.coverage.Some? then CoverageFailures(e, e.coverage.value)
    else Unless(profile == LegacyV1, MissingCoverage())
  }

  /** What each layer appends, in order. */
  datatype Parts = Parts(
    binding: seq<Failure>, suitability: seq<Failure>, coverage: seq<Failure>, release: seq<Failure>,
    retrieval: seq<Failure>, answer: seq<Failure>, edge: seq<Failure>)

  function PartsOf(e: Evidence, profile: Profile): Parts {
    Parts(BindingFailures(e), SuitabilityFailures(e), CoveragePart(e, profile), ReleaseFailures(e.release),
          SafetyFailures(Retrieval, e.retrieval), AnswerFailures(e.answer), EdgeFailures(e.edge))
  }

  function AllFailures(p: Parts): seq<Failure> {
    p.binding + p.suitability + p.coverage + p.release + p.retrieval + p.answer + p.edge
  }

  function LayersOf(p: Parts, coverage: bool): Layers {
    Layers(p.suitability == [], if coverage then Some(p.coverage == []) else None, p.release == [], p.retrieval == [],
           p.answer == [], p.edge == [])
  }

  predicate AllPassed(l: Layers) {
    l.suitability && l.coverage != Some(false) && l.release && l.retrieval && l.answer && l.edge
  }

  function ResolvedBinding(e: Evidence): map<Field, Option<Digest<Blob>>> {
    map f | f in FIELDS :: Resolved(e, f)
  }

  function HasCoverageLayer(e: Evidence, profile: Profile): bool {
    profile == GovernedV1 || e.coverage.Some?
  }

  /** The report made of what the layers appended. */
  function Assembled(profile: Profile, binding: map<Field, Option<Digest<Blob>>>, p: Parts, coverage: bool, order: Order): Report {
    var body := ReportBody(profile, binding, LayersOf(p, coverage), Sort(AllFailures(p), order),
                           if AllFailures(p) == [] then PASS else FAIL);
    Report(Sha256(body), body)
  }

  function Promoted(e: Evidence, profile: Profile, order: Order): Report {
    Assembled(profile, ResolvedBinding(e), PartsOf(e, profile), HasCoverageLayer(e, profile), order)
  }

  /** The report's binding table, and a failure for each digest that is missing, malformed or disputed. */
  method ValidateBindings(e: Evidence) returns (failures: seq<Failure>, resolved: map<Field, Option<Digest<Blob>>>)
    ensures failures == BindingFailures(e) && resolved == ResolvedBinding(e)
    ensures failures == [] <==> BindingGate(e)
  {
    failures, resolved := ResolveFields(e, FIELDS, FieldCheck(e), f => Resolved(e, f));
    assert resolved == ResolvedBinding(e);
    BindingIff(e);
  }

  /** `check` is what each field adds, and `value` the digest it resolves to. */
  ghost predicate ForFields(e: Evidence, check: Field -> seq<Failure>, value: Field -> Option<Digest<Blob>>) {
    && (forall f {:trigger FieldCheck(e)(f)} :: check(f) == FieldCheck(e)(f))
    && forall f {:trigger Resolved(e, f)} :: value(f) == Resolved(e, f)
  }

  method ResolveFields(e: Evidence, fields: seq<Field>, ghost check: Field -> seq<Failure>,
                       ghost value: Field -> Option<Digest<Blob>>)
    returns (failures: seq<Failure>, resolved: map<Field, Option<Digest<Blob>>>)
    requires ForFields(e, check, value)
    ensures failures == FlatMap(fields, check)
    ensures resolved.Keys == set i | 0 <= i < |fields| :: fields[i]
    ensures forall f :: f in resolved ==> resolved[f] == value(f)
  {
    failures, resolved := [], map[];
    for i := 0 to |fields|
      invariant failures == FlatMapTo(fields, check, i)
      invariant resolved.Keys == set k | 0 <= k < i :: fields[k]
      invariant forall f :: f in resolved ==> resolved[f] == value(f)
    {
      var added, found := ResolveField(e, fields[i], check, value);
      failures := failures + added;
      resolved := resolved[fields[i] := found];
    }
  }

  method ResolveField(e: Evidence, field: Field, ghost check: Field -> seq<Failure>,
                      ghost value: Field -> Option<Digest<Blob>>)
    returns (failures: seq<Failure>, resolved: Option<Digest<Blob>>)
    requires ForFields(e, check, value)
    ensures failures == check(field) && resolved == value(field)
  {
    var observed;
    failures, observed := ObserveField(e, field, SOURCES);
    var disputed := exists d :: d in observed && d != observed[0];
    failures := Require(!disputed, Failure(ArtifactBinding, BINDING_MISMATCH, BindingAll(field)), failures);
    resolved := if observed == [] || disputed then None else Some(observed[0]);
    assert failures == FieldCheck(e)(field) && resolved == Resolved(e, field);
  }

  method ObserveField(e: Evidence, field: Field, sources: seq<Source>) returns (missing: seq<Failure>, observed: seq<Digest<Blob>>)
    ensures missing == FlatMap(sources, SourceCheck(e, field)) && observed == FlatMap(sources, NamedBy(e, field))
  {
    missing, observed := [], [];
    for j := 0 to |sources|
      invariant missing == FlatMapTo(sources, SourceCheck(e, field), j)
      invariant observed == FlatMapTo(sources, NamedBy(e, field), j)
    {
      var binding := BindingFrom(e, sources[j]);
      if field in binding {
        observed := observed + [binding[field]];
      } else {
        missing := missing + [Failure(ArtifactBinding, MISSING_OR_INVALID_BINDING, BindingOf(sources[j], field))];
      }
    }
  }

  /** One result for each threshold, and a failure for each that is not met. */
  method CheckThresholds(layer: Layer, place: Place, metrics: Metrics, ts: seq<Threshold>, failures: seq<Failure>)
    returns (all: seq<Failure>, checks: seq<bool>)
    ensures all == failures + FlatMap(ts, ThresholdCheck(layer, place, metrics))
    ensures |checks| == |ts| && forall i :: 0 <= i < |ts| ==> (checks[i] <==> Passes(metrics, ts[i]))
  {
    all, checks := failures, [];
    for i := 0 to |ts|
      invariant all == failures + FlatMapTo(ts, ThresholdCheck(layer, place, metrics), i)
      invariant |checks| == i && forall k :: 0 <= k < i ==> (checks[k] <==> Passes(metrics, ts[k]))
    {
      var added, ok := CheckThreshold(layer, place, metrics, ts[i]);
      all, checks := all + added, checks + [ok];
    }
  }

  method CheckThreshold(layer: Layer, place: Place, metrics: Metrics, t: Threshold) returns (failures: seq<Failure>, ok: bool)
    ensures failures == ThresholdCheck(layer, place, metrics)(t) && ok == Passes(metrics, t)
  {
    ok := Passes(metrics, t);
    failures := if ok then [] else [Failure(layer, if t.metric in metrics then THRESHOLD_FAILED else MISSING_METRIC, MetricAt(place, t.metric))];
  }

  /** One safety class; `passed` says that it added no failure. */
  method CheckClass(layer: Layer, c: SafetyClass, v: ClassEvidence, ts: seq<Threshold>)
    returns (failures: seq<Failure>, passed: bool)
    ensures failures == ClassFailures(layer, c, v, ts)
    ensures passed <==> MeetsAll(v, c == Critical, ts)
  {
    var checks;
    failures, checks := CheckThresholds(layer, ClassOf(c), v.metrics, ts, CaseCountCheck(layer, c, v));
    failures := failures + FailedCasesCheck(layer, c, v);
    passed := |failures| == 0;
    ThresholdsIff(layer, ClassOf(c), v.metrics, ts);
  }

  /** `check` is what each class of the layer adds, and `gate` whether it meets its own demands. */
  ghost predicate ForClasses(layer: Layer, e: SafetyEvidence, check: SafetyClass -> seq<Failure>, gate: SafetyClass -> bool) {
    && (forall c {:trigger ClassCheck(layer, e)(c)} :: check(c) == ClassCheck(layer, e)(c))
    && forall c {:trigger ClassGate(layer, e, c)} :: gate(c) == ClassGate(layer, e, c)
  }

  method CheckClassOf(layer: Layer, e: SafetyEvidence, c: SafetyClass, ghost check: SafetyClass -> seq<Failure>,
                      ghost gate: SafetyClass -> bool) returns (failures: seq<Failure>, passed: bool)
    requires ForClasses(layer, e, check, gate)
    ensures failures == check(c) && passed == gate(c)
  {
    failures, passed := CheckClass(layer, c, ClassValues(e, c), ThresholdsFor(layer, c));
    assert failures == ClassCheck(layer, e)(c) && passed == ClassGate(layer, e, c);
  }

  method CheckClasses(layer: Layer, e: SafetyEvidence, cs: seq<SafetyClass>, ghost check: SafetyClass -> seq<Failure>,
                      ghost gate: SafetyClass -> bool)
    returns (failures: seq<Failure>, passed: seq<bool>)
    requires ForClasses(layer, e, check, gate)
    ensures failures == FlatMap(cs, check)
    ensures |passed| == |cs| && forall i :: 0 <= i < |cs| ==> passed[i] == gate(cs[i])
  {
    failures, passed := [], [];
    for i := 0 to |cs|
      invariant failures == FlatMapTo(cs, check, i)
      invariant |passed| == i && forall k :: 0 <= k < i ==> passed[k] == gate(cs[k])
    {
      var added, ok := CheckClassOf(layer, e, cs[i], check, gate);
      failures, passed := failures + added, passed + [ok];
    }
  }

  /** A safety layer: what fails, and for each class whether it meets all its own demands, whatever the
      others do. */
  method SafetyLayer(layer: Layer, e: SafetyEvidence) returns (failures: seq<Failure>, classes: seq<bool>)
    ensures failures == SafetyFailures(layer, e)
    ensures failures == [] <==> SafetyGate(layer, e)
    ensures |classes| == |CLASSES| && forall i :: 0 <= i < |CLASSES| ==> classes[i] == ClassGate(layer, e, CLASSES[i])
  {
    failures, classes := CheckClasses(layer, e, CLASSES, ClassCheck(layer, e), c => ClassGate(layer, e, c));
    failures := PolicyViolations(layer, e) + failures;
    failures := Require(e.runs == Some(3.0), Failure(layer, DETERMINISM_NOT_PROVEN, Part(WholeLayer, 1)), failures);
    failures := Require(e.deterministic, Failure(layer, DETERMINISM_NOT_PROVEN, Part(WholeLayer, 2)), failures);
    SafetyIff(layer, e);
  }

  method AnswerLayer(e: SafetyEvidence) returns (failures: seq<Failure>, classes: seq<bool>)
    ensures failures == AnswerFailures(e)
    ensures failures == [] <==> AnswerGate(e)
  {
    failures, classes := SafetyLayer(GroundedAnswer, e);
    failures := failures + LineageCheck(e);
    AnswerIff(e);
  }

  method EdgeLayer(e: EdgeEvidence) returns (failures: seq<Failure>)
    ensures failures == EdgeFailures(e)
    ensures failures == [] <==> EdgeGate(e)
  {
    failures := Require(e.profiles != [], Failure(EdgeOperation, MISSING_PROFILES, Part(WholeLayer, 0)), []);
    failures := Flatten(Sort(e.profiles, ByName), ProfileEvidenceCheck(), failures);
    EdgeIff(e);
  }

  method ReleaseLayer(r: ReleaseEvidence) returns (failures: seq<Failure>)
    ensures failures == ReleaseFailures(r)
    ensures failures == [] <==> ReleaseGate(r)
  {
    failures := Flatten(CHECKS, ReleaseCheck(r), []);
    failures := Flatten(COUNTS, CountCheck(r), failures);
    failures := Require(r.passed, Failure(ReleaseValidity, EVALUATOR_BLOCKED, Part(WholeLayer, 0)), failures);
    ReleaseIff(r);
  }

  /** `None` is the refusal of a coverage report under the legacy profile. */
  method EvaluatePromotion(e: Evidence, profile: Profile, order: Order) returns (report: Option<Report>)
    ensures report.None? <==> profile == LegacyV1 && e.coverage.Some?
    ensures report.Some? ==> report.value == Promoted(e, profile, order)
  {
    if profile == LegacyV1 && e.coverage.Some? {
      return None;
    }
    var promoted := Promote(e, profile, order);
    return Some(promoted);
  }

  method Promote(e: Evidence, profile: Profile, order: Order) returns (report: Report)
    ensures report == Promoted(e, profile, order)
  {
    var parts, resolved := RunLayers(e, profile);
    report := Conclude(profile, resolved, parts, HasCoverageLayer(e, profile), order);
  }

  method RunLayers(e: Evidence, profile: Profile) returns (parts: Parts, resolved: map<Field, Option<Digest<Blob>>>)
    ensures parts == PartsOf(e, profile) && resolved == ResolvedBinding(e)
    ensures !HasCoverageLayer(e, profile) ==> parts.coverage == []
  {
    var binding;
    binding, resolved := ValidateBindings(e);
    var release := ReleaseLayer(e.release);
    var retrieval, answer := RunSafetyLayers(e);
    var edge := EdgeLayer(e.edge);
    parts := Parts(binding, SuitabilityFailures(e), CoveragePart(e, profile), release, retrieval, answer, edge);
  }

  method RunSafetyLayers(e: Evidence) returns (retrieval: seq<Failure>, answer: seq<Failure>)
    ensures retrieval == SafetyFailures(Retrieval, e.retrieval) && answer == AnswerFailures(e.answer)
  {
    var retrievalClasses, answerClasses;
    retrieval, retrievalClasses := SafetyLayer(Retrieval, e.retrieval);
    answer, answerClasses := AnswerLayer(e.answer);
  }

  /** Append the failures of the layers one after the other, mark each layer, decide. */
  method Conclude(profile: Profile, binding: map<Field, Option<Digest<Blob>>>, p: Parts, coverage: bool, order: Order)
    returns (report: Report)
    requires !coverage ==> p.coverage == []
    ensures report == Assembled(profile, binding, p, coverage, order)
  {
    var failures := p.binding;
    var before := |failures|;
    failures := failures + p.suitability;
    var suitability := |failures| == before;
    before := |failures|;
    failures := failures + p.coverage;
    var covered := if coverage then Some(|failures| == before) else None;
    before := |failures|;
    failures := failures + p.release;
    var release := |failures| == before;
    before := |failures|;
    failures := failures + p.retrieval;
    var retrieval := |failures| == before;
    before := |failures|;
    failures := failures + p.answer;
    var answer := |failures| == before;
    before := |failures|;
    failures := failures + p.edge;
    var edge := |failures| == before;
    var layers := Layers(suitability, covered, release, retrieval, answer, edge);
    assert layers == LayersOf(p, coverage) && failures == AllFailures(p);
    var body := ReportBody(profile, binding, layers, Sort(failures, order),
                           if failures == [] && AllPassed(layers) then PASS else FAIL);
    return Report(Sha256(body), body);
  }

  // ---------------------------------------------------------------- what a pass means

  predicate FieldBound(e: Evidence, f: Field) {
    Resolved(e, f).Some? && Bound(e, f, Resolved(e, f).value)
  }

  predicate BindingGate(e: Evidence) {
    forall f :: f in FIELDS ==> FieldBound(e, f)
  }

  lemma NamedMembers(e: Evidence, f: Field)
    ensures forall d :: d in Named(e, f) <==> exists s :: s in SOURCES && Get(BindingFrom(e, s), f) == Some(d)
  {
    forall d ensures d in Named(e, f) <==> exists s :: s in SOURCES && Get(BindingFrom(e, s), f) == Some(d) {
      FlatMapMembers(SOURCES, NamedBy(e, f), d);
    }
  }

  lemma FieldCheckIff(e: Evidence, f: Field)
    ensures FieldCheck(e)(f) == [] <==> FieldBound(e, f)
  {
    FlatMapIsEmptyIff(SOURCES, SourceCheck(e, f));
    assert FieldCheck(e)(f) == [] <==>
      (forall s :: s in SOURCES ==> f in BindingFrom(e, s)) && AllEqual(Named(e, f));
    AgreedIff(e, f, Named(e, f));
  }

  lemma AgreedIff(e: Evidence, f: Field, ds: seq<Digest<Blob>>)
    requires ds == Named(e, f)
    ensures (forall s :: s in SOURCES ==> f in BindingFrom(e, s)) && AllEqual(ds) <==> FieldBound(e, f)
  {
    NamedMembers(e, f);
    assert FromRelease in SOURCES;
    assert ds != [] ==> ds[0] in ds;
    assert f in BindingFrom(e, FromRelease) ==> BindingFrom(e, FromRelease)[f] in ds;
  }

  lemma BindingIff(e: Evidence)
    ensures BindingFailures(e) == [] <==> BindingGate(e)
  {
    FlatMapIsEmptyIff(FIELDS, FieldCheck(e));
    forall f ensures FieldCheck(e)(f) == [] <==> FieldBound(e, f) {
      FieldCheckIff(e, f);
    }
  }

  lemma SuitabilityIff(e: Evidence)
    ensures SuitabilityFailures(e) == [] <==> SuitabilityGate(e)
  {
    FlatMapIsEmptyIff(SHARED, SharedCheck(e));
  }

  lemma CoverageIff(e: Evidence, c: CoverageEvidence)
    ensures CoverageFailures(e, c) == [] <==> CoverageGate(e, c)
  {
    if e.release.coverageBinding.Some? {
      IdentityIff(e.release.coverageBinding.value, c);
    }
    if e.release.governance.Some? {
      PackageIff(e.release.governance.value, c);
    }
  }

  lemma IdentityIff(expected: map<IdField, string>, c: CoverageEvidence)
    ensures FlatMap(ID_FIELDS, IdentityCheck(expected, c)) == [] <==> IdentityGate(expected, c)
  {
    FlatMapIsEmptyIff(ID_FIELDS, IdentityCheck(expected, c));
  }

  lemma PackageIff(g: PackageGovernance, c: CoverageEvidence)
    ensures PackageFailures(g, c) == [] <==> PackageGate(g, c)
  {
    FlatMapIsEmptyIff(GOVERNANCE_IDS, GovernanceCheck(g, c));
    FlatMapIsEmptyIff(SECTIONS, SectionCheck(g));
  }

  lemma ChecksIff(r: ReleaseEvidence)
    ensures FlatMap(CHECKS, ReleaseCheck(r)) == [] <==> forall c :: c in CHECKS ==> c in r.checks
  {
    FlatMapIsEmptyIff(CHECKS, ReleaseCheck(r));
  }

  lemma CountsIff(r: ReleaseEvidence)
    ensures FlatMap(COUNTS, CountCheck(r)) == [] <==> forall c :: c in COUNTS ==> c in r.counts && r.counts[c] == 0.0
  {
    FlatMapIsEmptyIff(COUNTS, CountCheck(r));
  }

  lemma ReleaseIff(r: ReleaseEvidence)
    ensures ReleaseFailures(r) == [] <==> ReleaseGate(r)
  {
    ChecksIff(r);
    CountsIff(r);
  }

  lemma ThresholdsIff(layer: Layer, place: Place, metrics: Metrics, ts: seq<Threshold>)
    ensures FlatMap(ts, ThresholdCheck(layer, place, metrics)) == [] <==> forall t :: t in ts ==> Passes(metrics, t)
  {
    FlatMapIsEmptyIff(ts, ThresholdCheck(layer, place, metrics));
  }

  lemma ClassIff(layer: Layer, e: SafetyEvidence, c: SafetyClass)
    ensures ClassCheck(layer, e)(c) == [] <==> ClassGate(layer, e, c)
  {
    ThresholdsIff(layer, ClassOf(c), ClassValues(e, c).metrics, ThresholdsFor(layer, c));
  }

  lemma SafetyIff(layer: Layer, e: SafetyEvidence)
    ensures SafetyFailures(layer, e) == [] <==> SafetyGate(layer, e)
  {
    FlatMapIsEmptyIff(CLASSES, ClassCheck(layer, e));
    forall c ensures ClassCheck(layer, e)(c) == [] <==> ClassGate(layer, e, c) {
      ClassIff(layer, e, c);
    }
  }

  lemma ProfileIff(x: (string, Option<EdgeProfileEvidence>))
    ensures ProfileEvidenceCheck()(x) == [] <==> ProfileGate(x.1)
  {
    var p := x.1.GetOr(NO_PROFILE);
    ThresholdsIff(EdgeOperation, EdgeProfile(x.0), p.metrics, EDGE_THRESHOLDS);
    FlatMapIsEmptyIff(PROFILE_CHECKS, ProfileFlag(x.0, p));
  }

  lemma SortedProfiles(profiles: seq<(string, Option<EdgeProfileEvidence>)>)
    ensures forall x :: x in Sort(profiles, ByName) <==> x in profiles
  {
    ByNameIsPreorder();
    SortSorts(profiles, ByName);
    forall x ensures x in Sort(profiles, ByName) <==> x in profiles {
      PermutationMembers(Sort(profiles, ByName), profiles, x);
    }
  }

  lemma EdgeIff(e: EdgeEvidence)
    ensures EdgeFailures(e) == [] <==> EdgeGate(e)
  {
    SortedProfiles(e.profiles);
    FlatMapIsEmptyIff(Sort(e.profiles, ByName), ProfileEvidenceCheck());
    forall x ensures ProfileEvidenceCheck()(x) == [] <==> ProfileGate(x.1) {
      ProfileIff(x);
    }
  }

  lemma ByNameIsPreorder()
    ensures Preorder(ByName)
  {
    forall x, y ensures ByName(x, y) || ByName(y, x) {
      StringLeTotal(x.0, y.0);
    }
    forall x, y, z | ByName(x, y) && ByName(y, z) ensures ByName(x, z) {
      StringLeTransitive(x.0, y.0, z.0);
    }
  }

  /** What every layer demands, in the order of `Parts`. */
  predicate Matches(p: Parts, binding: bool, suitability: bool, coverage: bool, release: bool, retrieval: bool,
                    answer: bool, edge: bool) {
    && (p.binding == [] <==> binding) && (p.suitability == [] <==> suitability) && (p.coverage == [] <==> coverage)
    && (p.release == [] <==> release) && (p.retrieval == [] <==> retrieval) && (p.answer == [] <==> answer)
    && (p.edge == [] <==> edge)
  }

  predicate CoverageDemand(e: Evidence, profile: Profile) {
    if e.coverage.Some? then CoverageGate(e, e.coverage.value) else profile == LegacyV1
  }

  lemma CoveragePartIff(e: Evidence, profile: Profile)
    ensures CoveragePart(e, profile) == [] <==> CoverageDemand(e, profile)
  {
    if e.coverage.Some? {
      CoverageIff(e, e.coverage.value);
    }
  }

  lemma AnswerIff(e: SafetyEvidence)
    ensures AnswerFailures(e) == [] <==> AnswerGate(e)
  {
    SafetyIff(GroundedAnswer, e);
  }

  lemma PartsMatchGates(e: Evidence, profile: Profile)
    ensures Matches(PartsOf(e, profile), BindingGate(e), SuitabilityGate(e), CoverageDemand(e, profile),
                    ReleaseGate(e.release), SafetyGate(Retrieval, e.retrieval), AnswerGate(e.answer), EdgeGate(e.edge))
  {
    BindingIff(e);
    SuitabilityIff(e);
    CoveragePartIff(e, profile);
    ReleaseIff(e.release);
    SafetyIff(Retrieval, e.retrieval);
    AnswerIff(e.answer);
    EdgeIff(e.edge);
  }

  lemma AllEmptyIff(p: Parts)
    ensures AllFailures(p) == [] <==>
            && p.binding == [] && p.suitability == [] && p.coverage == [] && p.release == [] && p.retrieval == []
            && p.answer == [] && p.edge == []
  {
    assert |AllFailures(p)| == |p.binding| + |p.suitability| + |p.coverage| + |p.release| + |p.retrieval| + |p.answer|
                               + |p.edge|;
  }

  lemma AssembledPasses(profile: Profile, binding: map<Field, Option<Digest<Blob>>>, p: Parts, coverage: bool, order: Order,
                        b: bool, s: bool, c: bool, r: bool, t: bool, a: bool, e: bool)
    requires Matches(p, b, s, c, r, t, a, e)
    ensures var body := Assembled(profile, binding, p, coverage, order).body;
            && (body.decision == PASS <==> b && s && c && r && t && a && e)
            && (body.failures == [] <==> body.decision == PASS)
            && body.layers == Layers(s, if coverage then Some(c) else None, r, t, a, e)
  {
    SortEmptyIff(AllFailures(p), order);
    AllEmptyIff(p);
  }

  lemma SortEmptyIff(failures: seq<Failure>, order: Order)
    ensures Sort(failures, order) == [] <==> failures == []
  {
    if failures != [] {
      InsertNotEmpty(Sort(failures[..|failures| - 1], order), failures[|failures| - 1], order);
    }
  }

  lemma InsertNotEmpty(s: seq<Failure>, x: Failure, order: Order)
    ensures Insert(s, x, order) != []
  {
  }

  /** The decision is PASS exactly when all evidence names one tuple of digests and every layer, every
      safety class and every edge profile meets its own demands; each layer is marked as passed exactly
      when it meets its own, whatever the others do. */
  lemma PassIff(e: Evidence, profile: Profile, order: Order)
    ensures var body := Promoted(e, profile, order).body;
            && (body.decision == PASS <==>
                  && BindingGate(e) && SuitabilityGate(e) && CoverageDemand(e, profile) && ReleaseGate(e.release)
                  && SafetyGate(Retrieval, e.retrieval) && AnswerGate(e.answer) && EdgeGate(e.edge))
            && (body.failures == [] <==> body.decision == PASS)
            && body.layers ==
               Layers(SuitabilityGate(e), if HasCoverageLayer(e, profile) then Some(CoverageDemand(e, profile)) else None,
                      ReleaseGate(e.release), SafetyGate(Retrieval, e.retrieval), AnswerGate(e.answer), EdgeGate(e.edge))
  {
    PartsMatchGates(e, profile);
    AssembledPasses(profile, ResolvedBinding(e), PartsOf(e, profile), HasCoverageLayer(e, profile), order,
                    BindingGate(e), SuitabilityGate(e), CoverageDemand(e, profile), ReleaseGate(e.release),
                    SafetyGate(Retrieval, e.retrieval), AnswerGate(e.answer), EdgeGate(e.edge));
  }

  lemma ReportShape(e: Evidence, profile: Profile, order: Order)
    ensures var r := Promoted(e, profile, order);
            && r.id == Sha256(r.body) && r.body.profile == profile && r.body.binding == ResolvedBinding(e)
            && (r.body.layers.coverage.Some? <==> HasCoverageLayer(e, profile))
  {
  }

  lemma AssembledShape(profile: Profile, binding: map<Field, Option<Digest<Blob>>>, p: Parts, coverage: bool, order: Order)
    ensures var body := Assembled(profile, binding, p, coverage, order).body;
            && (body.failures == [] <==> body.decision == PASS)
            && (body.decision == PASS ==> AllPassed(body.layers) && p.binding == [])
  {
    SortEmptyIff(AllFailures(p), order);
    AllEmptyIff(p);
  }

  lemma PassShape(e: Evidence, profile: Profile, order: Order)
    ensures var body := Promoted(e, profile, order).body;
            && (body.failures == [] <==> body.decision == PASS)
            && (body.decision == PASS ==> AllPassed(body.layers) && BindingGate(e))
  {
    AssembledShape(profile, ResolvedBinding(e), PartsOf(e, profile), HasCoverageLayer(e, profile), order);
    BindingIff(e);
  }
}
