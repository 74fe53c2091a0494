/**
 Planning coverage of a mission. A list the source sorts and cannot hold twice is its set (qualifying
 sources, gaps), a list it sorts by a key it looks up is a map (source findings, fact collisions), and
 lists in which repetition matters stay sequences.
 */
module Coverage {
  import opened Prelude
  import opened Crypto
  import opened Safety
  import opened Validity
  import opened Sorting

  datatype Scope = Scope(geographies: set<string>, languages: set<string>, audiences: set<string>)

  datatype Source = Source(
    id: string, enabled: bool, approved: bool, redistributable: bool, freshness: Window, vertical: string,
    informationClasses: set<string>, risk: SafetyClass, scope: Scope, authority: string)

  datatype Classification = Classification(
    id: string, missionId: string, documentId: string, categories: set<string>, scope: Scope, channels: set<string>,
    intents: set<string>, verified: bool, redistributable: bool, validity: Window, safety: SafetyClass,
    sourceIds: set<string>, authority: string)

  /** `contested` is the explanation of a declared conflict; a fact is its identifier and canonical value. */
  datatype Document = Document(id: string, eventId: string, contested: Option<string>, facts: seq<(string, string)>)

  datatype Requirement = Requirement(
    id: string, category: string, safety: SafetyClass, intents: set<string>, minimumSources: nat)

  datatype Mission = Mission(
    id: string, eventId: string, vertical: string, scope: Scope, channels: set<string>, requirements: seq<Requirement>)

  datatype Registry = Registry(id: string, eventId: string, sources: seq<Source>)

  /** What the validator demands of a mission and of a registry: no ID twice. */
  ghost predicate MissionOk(m: Mission) {
    && DistinctBy(m.requirements, (r: Requirement) => r.id) && DistinctBy(m.requirements, (r: Requirement) => r.category)
  }

  ghost predicate RegistryOk(r: Registry) {
    DistinctBy(r.sources, (s: Source) => s.id)
  }

  predicate Within(required: Scope, offered: Scope) {
    && required.geographies <= offered.geographies && required.languages <= offered.languages
    && required.audiences <= offered.audiences
  }

  // ---------------------------------------------------------------- sources

  datatype SourceCode = SOURCE_DISABLED | SOURCE_NOT_APPROVED | REDISTRIBUTION_PROHIBITED | SOURCE_OUTSIDE_VALIDITY

  function Reasons(s: Source, now: int): set<SourceCode> {
    (if s.enabled then {} else {SOURCE_DISABLED})
    + (if s.approved then {} else {SOURCE_NOT_APPROVED})
    + (if s.redistributable then {} else {REDISTRIBUTION_PROHIBITED})
    + (if ActiveAt(s.freshness, now) then {} else {SOURCE_OUTSIDE_VALIDITY})
  }

  /** The dictionary of the sources by ID: the last of two with one ID stays. */
  function IndexTo(sources: seq<Source>, n: nat): map<string, Source>
    requires n <= |sources|
  {
    if n == 0 then map[] else IndexTo(sources, n - 1)[sources[n - 1].id := sources[n - 1]]
  }

  function Index(sources: seq<Source>): map<string, Source> {
    IndexTo(sources, |sources|)
  }

  function Usable(index: map<string, Source>, now: int): set<string> {
    set id | id in index && Reasons(index[id], now) == {}
  }

  function Findings(index: map<string, Source>, now: int): map<string, set<SourceCode>> {
    map id | id in index && Reasons(index[id], now) != {} :: Reasons(index[id], now)
  }

  lemma {:induction false} IndexHolds(sources: seq<Source>, n: nat)
    requires n <= |sources| && DistinctBy(sources, (s: Source) => s.id)
    ensures forall i :: 0 <= i < n ==> sources[i].id in IndexTo(sources, n) && IndexTo(sources, n)[sources[i].id] == sources[i]
    ensures forall id :: id in IndexTo(sources, n) ==> exists i :: 0 <= i < n && sources[i].id == id
  {
    if n > 0 {
      IndexHolds(sources, n - 1);
      var key := (s: Source) => s.id;
      assert forall i :: 0 <= i < n - 1 ==> key(sources[i]) != key(sources[n - 1]);
    }
  }

  lemma IndexIs(sources: seq<Source>)
    requires DistinctBy(sources, (s: Source) => s.id)
    ensures forall s :: s in sources ==> s.id in Index(sources) && Index(sources)[s.id] == s
    ensures forall id :: id in Index(sources) ==> exists s :: s in sources && s.id == id
  {
    IndexHolds(sources, |sources|);
    forall id | id in Index(sources) ensures exists s :: s in sources && s.id == id {
      var i :| 0 <= i < |sources| && sources[i].id == id;
      assert sources[i] in sources;
    }
  }

  lemma IndexForgetsOrder(a: seq<Source>, b: seq<Source>)
    requires DistinctBy(a, (s: Source) => s.id) && Permutation(a, b)
    ensures Index(a) == Index(b)
  {
    PermutationKeepsDistinct(a, b, (s: Source) => s.id);
    IndexIs(a);
    IndexIs(b);
    forall s ensures s in a <==> s in b {
      PermutationMembers(a, b, s);
    }
    forall id | id in Index(a) ensures id in Index(b) && Index(a)[id] == Index(b)[id] {
      var s :| s in a && s.id == id;
    }
    forall id | id in Index(b) ensures id in Index(a) {
      var s :| s in b && s.id == id;
    }
  }

  // ---------------------------------------------------------------- conflicts

  datatype Declared = Declared(documentId: string, explanation: string)

  datatype Triple = Triple(fact: string, value: string, document: string)

  datatype Collision = Collision(documents: set<string>, values: set<Digest<string>>)

  datatype Conflicts = Conflicts(declared: seq<Declared>, collisions: map<string, Collision>)

  predicate Conflicted(c: Conflicts) {
    c.declared != [] || c.collisions != map[]
  }

  predicate ByDocument(a: Declared, b: Declared) {
    StringLe(a.documentId, b.documentId)
  }

  function DeclaredIn(): Document -> seq<Declared> {
    (d: Document) => if d.contested.Some? then [Declared(d.id, d.contested.value)] else []
  }

  function Triples(ds: seq<Document>): set<Triple> {
    set d, f | d in ds && f in d.facts :: Triple(f.0, f.1, d.id)
  }

  predicate Collides(ts: set<Triple>, fact: string) {
    exists t, u :: t in ts && u in ts && t.fact == fact && u.fact == fact && t.value != u.value
  }

  function Collisions(ts: set<Triple>): map<string, Collision> {
    map fact | fact in (set t | t in ts :: t.fact) && Collides(ts, fact) ::
      Collision(set t | t in ts && t.fact == fact :: t.document, set t | t in ts && t.fact == fact :: Sha256(t.value))
  }

  /** `_find_conflicts` */
  function ConflictsOf(ds: seq<Document>): Conflicts {
    Conflicts(Sort(FlatMap(ds, DeclaredIn()), ByDocument), Collisions(Triples(ds)))
  }

  method FindConflicts(ds: seq<Document>) returns (c: Conflicts)
    ensures c == ConflictsOf(ds)
  {
    var declared := Flatten(ds, DeclaredIn(), []);
    assert declared == FlatMap(ds, DeclaredIn());
    var triples: set<Triple> := {};
    for i := 0 to |ds|
      invariant triples == Triples(ds[..i])
    {
      assert ds[..i + 1] == ds[..i] + [ds[i]];
      triples := triples + set f | f in ds[i].facts :: Triple(f.0, f.1, ds[i].id);
    }
    assert ds[..|ds|] == ds;
    return Conflicts(Sort(declared, ByDocument), Collisions(triples));
  }

  // ---------------------------------------------------------------- one requirement

  datatype Gap = MissingIntent(message: string) | InsufficientSources(found: nat, required: nat) | NoQualifyingClassification

  datatype Status = COVERED | GAP | CONFLICTED

  datatype Action = HUMAN_CONFLICT_REVIEW | SOURCE_OR_CLASSIFICATION_WORK

  datatype RequirementReport = RequirementReport(
    id: string, category: string, safety: SafetyClass, status: Status, classificationIds: seq<string>,
    qualifyingIds: seq<string>, qualifyingSources: set<string>, gaps: set<Gap>, conflicts: Conflicts, actions: set<Action>)

  const INTENT_PREFIX := "no classification supports intent: "

  predicate RelatedTo(r: Requirement, c: Classification) {
    r.category in c.categories
  }

  /** The gate on a source of a classification. */
  predicate SourceFits(m: Mission, r: Requirement, c: Classification, s: Source) {
    && s.vertical == m.vertical && r.category in s.informationClasses && Rank(s.risk) >= Rank(r.safety)
    && Within(m.scope, s.scope) && s.authority == c.authority
  }

  /** Every trust and scope gate on a classification. */
  predicate Qualifies(m: Mission, index: map<string, Source>, now: int, r: Requirement, c: Classification) {
    && RelatedTo(r, c)
    && c.verified && c.redistributable && ActiveAt(c.validity, now) && Rank(c.safety) >= Rank(r.safety)
    && Within(m.scope, c.scope) && m.channels <= c.channels
    && c.sourceIds <= Usable(index, now)
    && forall id :: id in c.sourceIds ==> id in index && SourceFits(m, r, c, index[id])
  }

  function DocumentsOf(docs: seq<Document>): Classification -> seq<Document> {
    (c: Classification) => Where(docs, (d: Document) => d.id == c.documentId)
  }

  function Related(r: Requirement, cs: seq<Classification>): seq<Classification> {
    Where(cs, (c: Classification) => RelatedTo(r, c))
  }

  function Qualifying(m: Mission, index: map<string, Source>, now: int, r: Requirement, cs: seq<Classification>): seq<Classification> {
    Where(Related(r, cs), (c: Classification) => Qualifies(m, index, now, r, c))
  }

  function CoveredIntents(qs: seq<Classification>): set<string> {
    set c, i | c in qs && i in c.intents :: i
  }

  function SourcesOf(qs: seq<Classification>): set<string> {
    set c, s | c in qs && s in c.sourceIds :: s
  }

  function GapsOf(r: Requirement, qs: seq<Classification>): set<Gap> {
    (set i | i in r.intents && i !in CoveredIntents(qs) :: MissingIntent(INTENT_PREFIX + i))
    + (if |SourcesOf(qs)| < r.minimumSources then {InsufficientSources(|SourcesOf(qs)|, r.minimumSources)} else {})
    + if qs == [] then {NoQualifyingClassification} else {}
  }

  function StatusOf(conflicts: Conflicts, gaps: set<Gap>): Status {
    if Conflicted(conflicts) then CONFLICTED else if gaps != {} then GAP else COVERED
  }

  function ActionsOf(s: Status): set<Action> {
    match s
    case CONFLICTED => {HUMAN_CONFLICT_REVIEW}
    case GAP => {SOURCE_OR_CLASSIFICATION_WORK}
    case COVERED => {}
  }

  function Ids(cs: seq<Classification>): seq<string> {
    Sort(Map(cs, (c: Classification) => c.id), StringLe)
  }

  function RelatedDocuments(r: Requirement, cs: seq<Classification>, docs: seq<Document>): seq<Document> {
    FlatMap(Related(r, cs), DocumentsOf(docs))
  }

  function Assess(r: Requirement, related: seq<Classification>, qs: seq<Classification>, conflicts: Conflicts): RequirementReport {
    var status := StatusOf(conflicts, GapsOf(r, qs));
    RequirementReport(r.id, r.category, r.safety, status, Ids(related), Ids(qs), SourcesOf(qs), GapsOf(r, qs), conflicts,
                      ActionsOf(status))
  }

  function ReportFor(m: Mission, index: map<string, Source>, now: int, cs: seq<Classification>, docs: seq<Document>,
                     r: Requirement): RequirementReport {
    Assess(r, Related(r, cs), Qualifying(m, index, now, r, cs), ConflictsOf(RelatedDocuments(r, cs, docs)))
  }

  // ---------------------------------------------------------------- the report

  datatype Decision = ALL_COVERED | GAPS | CONFLICTS

  datatype Summary = Summary(requirements: nat, covered: nat, gaps: nat, conflicted: nat)

  datatype ReportBody = ReportBody(
    missionId: string, eventId: string, registryId: string, asOf: int, decision: Decision, summary: Summary,
    requirements: seq<RequirementReport>, findings: map<string, set<SourceCode>>)

  datatype Report = Report(id: Digest<ReportBody>, body: ReportBody)

  function CountStatus(rs: seq<RequirementReport>, s: Status): (n: nat)
    ensures n <= |rs|
    ensures n == 0 <==> forall i :: 0 <= i < |rs| ==> rs[i].status != s
  {
    if rs == [] then 0 else CountStatus(rs[..|rs| - 1], s) + if rs[|rs| - 1].status == s then 1 else 0
  }

  predicate HasStatus(rs: seq<RequirementReport>, s: Status) {
    exists i :: 0 <= i < |rs| && rs[i].status == s
  }

  function DecisionOf(rs: seq<RequirementReport>): Decision {
    if HasStatus(rs, CONFLICTED) then CONFLICTS else if HasStatus(rs, GAP) then GAPS else ALL_COVERED
  }

  function SummaryOf(rs: seq<RequirementReport>): Summary {
    Summary(|rs|, CountStatus(rs, COVERED), CountStatus(rs, GAP), CountStatus(rs, CONFLICTED))
  }

  predicate ByRequirementId(a: Requirement, b: Requirement) {
    StringLe(a.id, b.id)
  }

  function Ordered(m: Mission): seq<Requirement> {
    Sort(m.requirements, ByRequirementId)
  }

  function Reporter(m: Mission, index: map<string, Source>, now: int, cs: seq<Classification>, docs: seq<Document>)
    : Requirement -> RequirementReport
  {
    (r: Requirement) => ReportFor(m, index, now, cs, docs, r)
  }

  function Reports(m: Mission, index: map<string, Source>, now: int, cs: seq<Classification>, docs: seq<Document>): seq<RequirementReport> {
    Map(Ordered(m), Reporter(m, index, now, cs, docs))
  }

  function BodyOf(m: Mission, g: Registry, now: int, rs: seq<RequirementReport>, findings: map<string, set<SourceCode>>): Report {
    var body := ReportBody(m.id, m.eventId, g.id, now, DecisionOf(rs), SummaryOf(rs), rs, findings);
    Report(Sha256(body), body)
  }

  /** The planner refuses an invalid mission or registry, inputs that name another mission or event, and two
      classifications with one ID. */
  ghost predicate Plannable(m: Mission, g: Registry, cs: seq<Classification>, docs: seq<Document>) {
    && MissionOk(m) && RegistryOk(g) && m.eventId == g.eventId
    && (forall c :: c in cs ==> c.missionId == m.id)
    && DistinctBy(cs, (c: Classification) => c.id)
    && forall d :: d in docs ==> d.eventId == m.eventId
  }

  function Plan(m: Mission, g: Registry, now: int, cs: seq<Classification>, docs: seq<Document>): Report {
    BodyOf(m, g, now, Reports(m, Index(g.sources), now, cs, docs), Findings(Index(g.sources), now))
  }

  method CheckClassifications(m: Mission, cs: seq<Classification>) returns (ok: bool)
    ensures ok <==> (forall c :: c in cs ==> c.missionId == m.id) && DistinctBy(cs, (c: Classification) => c.id)
  {
    for i := 0 to |cs|
      invariant forall k :: 0 <= k < i ==> cs[k].missionId == m.id
    {
      if cs[i].missionId != m.id {
        return false;
      }
    }
    ok := CheckDistinct(cs, (c: Classification) => c.id);
  }

  method ValidateMission(m: Mission) returns (ok: bool)
    ensures ok <==> MissionOk(m)
  {
    var ids := CheckDistinct(m.requirements, (r: Requirement) => r.id);
    var categories := CheckDistinct(m.requirements, (r: Requirement) => r.category);
    return ids && categories;
  }

  method IndexSources(sources: seq<Source>) returns (index: map<string, Source>)
    ensures index == Index(sources)
  {
    index := map[];
    for i := 0 to |sources|
      invariant index == IndexTo(sources, i)
    {
      index := index[sources[i].id := sources[i]];
    }
  }

  method PlanMissionCoverage(m: Mission, g: Registry, now: int, cs: seq<Classification>, docs: seq<Document>)
    returns (report: Option<Report>)
    ensures report.Some? <==> Plannable(m, g, cs, docs)
    ensures report.Some? ==> report.value == Plan(m, g, now, cs, docs)
  {
    var missionOk := ValidateMission(m);
    var registryOk := CheckDistinct(g.sources, (s: Source) => s.id);
    if !missionOk || !registryOk || m.eventId != g.eventId {
      return None;
    }
    var index := IndexSources(g.sources);
    var ok := CheckClassifications(m, cs);
    if !ok || exists d :: d in docs && d.eventId != m.eventId {
      return None;
    }
    var reports := ReportAll(m, index, now, cs, docs, Ordered(m), Reporter(m, index, now, cs, docs));
    return Some(BodyOf(m, g, now, reports, Findings(index, now)));
  }

  method ReportOne(m: Mission, index: map<string, Source>, now: int, cs: seq<Classification>, docs: seq<Document>,
                   r: Requirement) returns (report: RequirementReport)
    ensures report == ReportFor(m, index, now, cs, docs, r)
  {
    var related := Related(r, cs);
    var relatedDocuments := Flatten(related, DocumentsOf(docs), []);
    assert relatedDocuments == RelatedDocuments(r, cs, docs);
    var conflicts := FindConflicts(relatedDocuments);
    return Assess(r, related, Qualifying(m, index, now, r, cs), conflicts);
  }

  method ReportAll(m: Mission, index: map<string, Source>, now: int, cs: seq<Classification>, docs: seq<Document>,
                   requirements: seq<Requirement>, ghost reporter: Requirement -> RequirementReport)
    returns (reports: seq<RequirementReport>)
    requires forall r {:trigger ReportFor(m, index, now, cs, docs, r)} :: reporter(r) == ReportFor(m, index, now, cs, docs, r)
    ensures reports == Map(requirements, reporter)
  {
    reports := [];
    for i := 0 to |requirements|
      invariant reports == Map(requirements[..i], reporter)
    {
      var report := ReportOne(m, index, now, cs, docs, requirements[i]);
      reports := reports + [report];
    }
    assert requirements[..|requirements|] == requirements;
  }
}
