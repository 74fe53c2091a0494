/** Turning the gaps of a coverage report into ranked, bounded sourcing work. */
module Sourcing {
  import opened Prelude
  import opened Crypto
  import opened Safety
  import opened Sorting
  import opened Coverage
  import opened CoverageReports

  datatype GapCode = MISSING_INTENT | INSUFFICIENT_QUALIFYING_SOURCES | NO_QUALIFYING_CLASSIFICATION

  datatype WorkItem = WorkItem(
    rank: nat, requirementId: string, category: string, safety: SafetyClass, requiredIntents: set<string>,
    uncoveredIntents: set<string>, gapCodes: set<GapCode>, minimumSources: nat, qualifyingSources: set<string>,
    additionalSources: nat)

  datatype WorkPlan = WorkPlan(
    missionId: string, eventId: string, reportId: Digest<ReportBody>, asOf: int, available: nat, omitted: nat,
    truncated: bool, items: seq<WorkItem>)

  const MAX_WORK_ITEMS := 100

  function CodeOf(g: Gap): GapCode {
    match g
    case MissingIntent(_) => MISSING_INTENT
    case InsufficientSources(_, _) => INSUFFICIENT_QUALIFYING_SOURCES
    case NoQualifyingClassification => NO_QUALIFYING_CLASSIFICATION
  }

  // ---------------------------------------------------------------- uncovered intents

  predicate StartsWith(s: string, prefix: string) {
    |prefix| <= |s| && s[..|prefix|] == prefix
  }

  function IntentIn(g: Gap): string
    requires g.MissingIntent? && StartsWith(g.message, INTENT_PREFIX)
  {
    g.message[|INTENT_PREFIX|..]
  }

  /** The gap is not about an intent, or names one that the mission requires. */
  predicate GapReadable(r: Requirement, g: Gap) {
    g.MissingIntent? ==> StartsWith(g.message, INTENT_PREFIX) && IntentIn(g) in r.intents
  }

  predicate Readable(r: Requirement, gaps: set<Gap>) {
    forall g :: g in gaps ==> GapReadable(r, g)
  }

  function Uncovered(r: Requirement, gaps: set<Gap>): set<string>
    requires Readable(r, gaps)
  {
    set g | g in gaps && g.MissingIntent? :: IntentIn(g)
  }

  method UncoveredIntents(r: Requirement, gaps: set<Gap>) returns (intents: Option<set<string>>)
    ensures intents.Some? <==> Readable(r, gaps)
    ensures intents.Some? ==> intents.value == Uncovered(r, gaps)
  {
    var found: set<string> := {};
    var rest := gaps;
    while rest != {}
      invariant rest <= gaps && Readable(r, gaps - rest)
      invariant found == Uncovered(r, gaps - rest)
      decreases |rest|
    {
      var g :| g in rest;
      if g.MissingIntent? {
        if !StartsWith(g.message, INTENT_PREFIX) || IntentIn(g) !in r.intents {
          return None;
        }
        found := found + {IntentIn(g)};
      }
      assert gaps - (rest - {g}) == (gaps - rest) + {g};
      rest := rest - {g};
    }
    assert gaps - rest == gaps;
    return Some(found);
  }

  // ---------------------------------------------------------------- the work plan

  function FindTo(rs: seq<Requirement>, id: string, n: nat): Option<Requirement>
    requires n <= |rs|
  {
    if n == 0 then None else if rs[n - 1].id == id then Some(rs[n - 1]) else FindTo(rs, id, n - 1)
  }

  /** The mission's requirement with this ID. */
  function Find(m: Mission, id: string): Option<Requirement> {
    FindTo(m.requirements, id, |m.requirements|)
  }

  predicate Matches(m: Mission, x: RequirementReport) {
    var r := Find(m, x.id);
    r.Some? && r.value.category == x.category && r.value.safety == x.safety
  }

  /** `_check_report_alignment` */
  predicate Aligned(m: Mission, b: ReportBody) {
    && b.missionId == m.id && b.eventId == m.eventId
    && (set x | x in b.requirements :: x.id) == (set r | r in m.requirements :: r.id)
    && forall x :: x in b.requirements ==> Matches(m, x)
  }

  /** Most severe first, then by category and requirement. */
  predicate MoreUrgent(a: RequirementReport, b: RequirementReport) {
    || Rank(a.safety) > Rank(b.safety)
    || (Rank(a.safety) == Rank(b.safety) && StringLt(a.category, b.category))
    || (Rank(a.safety) == Rank(b.safety) && a.category == b.category && StringLe(a.id, b.id))
  }

  function GapReports(b: ReportBody): seq<RequirementReport> {
    Sort(Where(b.requirements, (x: RequirementReport) => x.status == GAP), MoreUrgent)
  }

  predicate ReportedReadably(m: Mission, x: RequirementReport) {
    Find(m, x.id).Some? && Readable(Find(m, x.id).value, x.gaps)
  }

  function ItemFor(m: Mission, x: RequirementReport, rank: nat): WorkItem
    requires ReportedReadably(m, x)
  {
    var r := Find(m, x.id).value;
    WorkItem(rank, r.id, r.category, r.safety, r.intents, Uncovered(r, x.gaps), set g | g in x.gaps :: CodeOf(g),
             r.minimumSources, x.qualifyingSources, Max(0, r.minimumSources - |x.qualifyingSources|))
  }

  function Emitted(b: ReportBody, maxItems: nat): nat {
    Min(maxItems, |GapReports(b)|)
  }

  ghost predicate Buildable(m: Mission, report: Report, maxItems: int) {
    && 1 <= maxItems <= MAX_WORK_ITEMS && MissionOk(m) && ReportContract(report) && Aligned(m, report.body)
    && forall k :: 0 <= k < Emitted(report.body, maxItems) ==> ReportedReadably(m, GapReports(report.body)[k])
  }

  function PlanOf(m: Mission, report: Report, items: seq<WorkItem>): WorkPlan {
    var available := |GapReports(report.body)|;
    WorkPlan(m.id, m.eventId, report.id, report.body.asOf, available, Max(0, available - |items|), available > |items|, items)
  }

  method BuildSourcingWorkItems(m: Mission, report: Report, maxItems: int) returns (plan: Option<WorkPlan>)
    ensures plan.Some? <==> Buildable(m, report, maxItems)
    ensures plan.Some? ==>
              && |plan.value.items| == Emitted(report.body, maxItems)
              && plan.value == PlanOf(m, report, plan.value.items)
              && forall k :: 0 <= k < |plan.value.items| ==>
                   plan.value.items[k] == ItemFor(m, GapReports(report.body)[k], k + 1)
  {
    if maxItems < 1 || maxItems > MAX_WORK_ITEMS {
      return None;
    }
    var missionOk := ValidateMission(m);
    var reportOk := CheckReport(report);
    if !missionOk || !reportOk || !Aligned(m, report.body) {
      return None;
    }
    var items := BuildItems(m, GapReports(report.body), maxItems);
    return if items.Some? then Some(PlanOf(m, report, items.value)) else None;
  }

  method CheckReport(report: Report) returns (ok: bool)
    ensures ok <==> ReportContract(report)
  {
    var ids := CheckDistinct(report.body.requirements, (x: RequirementReport) => x.id);
    var categories := CheckDistinct(report.body.requirements, (x: RequirementReport) => x.category);
    return ids && categories && report.id == Sha256(report.body)
        && report.body.summary == SummaryOf(report.body.requirements)
        && report.body.decision == DecisionOf(report.body.requirements);
  }

  /** The loop over the gaps, most urgent first, up to the limit. */
  method BuildItems(m: Mission, gaps: seq<RequirementReport>, maxItems: nat) returns (result: Option<seq<WorkItem>>)
    ensures result.Some? <==> forall k :: 0 <= k < Min(maxItems, |gaps|) ==> ReportedReadably(m, gaps[k])
    ensures result.Some? ==>
              && |result.value| == Min(maxItems, |gaps|)
              && forall k :: 0 <= k < |result.value| ==> result.value[k] == ItemFor(m, gaps[k], k + 1)
  {
    var items: seq<WorkItem> := [];
    while |items| < |gaps| && |items| < maxItems
      invariant |items| <= |gaps| && |items| <= maxItems
      invariant forall k :: 0 <= k < |items| ==> ReportedReadably(m, gaps[k]) && items[k] == ItemFor(m, gaps[k], k + 1)
      decreases maxItems - |items|
    {
      var item := BuildItem(m, gaps[|items|], |items| + 1);
      if item.None? {
        return None;
      }
      items := items + [item.value];
    }
    return Some(items);
  }

  method BuildItem(m: Mission, x: RequirementReport, rank: nat) returns (item: Option<WorkItem>)
    ensures item.Some? <==> ReportedReadably(m, x)
    ensures item.Some? ==> item.value == ItemFor(m, x, rank)
  {
    var found := Find(m, x.id);
    if found.None? {
      return None;
    }
    var r := found.value;
    var uncovered := UncoveredIntents(r, x.gaps);
    if uncovered.None? {
      return None;
    }
    return Some(WorkItem(rank, r.id, r.category, r.safety, r.intents, uncovered.value, set g | g in x.gaps :: CodeOf(g),
                         r.minimumSources, x.qualifyingSources, Max(0, r.minimumSources - |x.qualifyingSources|)));
  }

  // ---------------------------------------------------------------- work from a plan

  lemma {:induction false} FindToIs(rs: seq<Requirement>, r: Requirement, n: nat)
    requires n <= |rs| && DistinctBy(rs, (x: Requirement) => x.id) && r in rs[..n]
    ensures FindTo(rs, r.id, n) == Some(r)
  {
    var key := (x: Requirement) => x.id;
    if rs[n - 1] != r {
      assert r in rs[..n - 1];
      var i :| 0 <= i < n - 1 && rs[i] == r;
      assert key(rs[i]) != key(rs[n - 1]);
      FindToIs(rs, r, n - 1);
    }
  }

  lemma FindIs(m: Mission, r: Requirement)
    requires MissionOk(m) && r in m.requirements
    ensures Find(m, r.id) == Some(r)
  {
    assert m.requirements[..|m.requirements|] == m.requirements;
    FindToIs(m.requirements, r, |m.requirements|);
  }

  lemma OrderedMembers(m: Mission)
    ensures forall r :: r in Ordered(m) <==> r in m.requirements
  {
    ByRequirementIdIsPreorder();
    SortSorts(m.requirements, ByRequirementId);
    forall r ensures r in Ordered(m) <==> r in m.requirements {
      PermutationMembers(Ordered(m), m.requirements, r);
    }
  }

  /** The entry is the report of a requirement of the mission. */
  ghost predicate EntryFor(m: Mission, index: map<string, Source>, now: int, cs: seq<Classification>, docs: seq<Document>,
                           x: RequirementReport, r: Requirement) {
    r in m.requirements && x == ReportFor(m, index, now, cs, docs, r)
  }

  lemma EntryIsOfMission(m: Mission, index: map<string, Source>, now: int, cs: seq<Classification>, docs: seq<Document>,
                         x: RequirementReport) returns (r: Requirement)
    requires x in Reports(m, index, now, cs, docs)
    ensures EntryFor(m, index, now, cs, docs, x, r)
  {
    OrderedMembers(m);
    var rs := Reports(m, index, now, cs, docs);
    var i :| 0 <= i < |rs| && rs[i] == x;
    r := Ordered(m)[i];
    assert r in Ordered(m);
  }

  lemma RequirementHasEntry(m: Mission, index: map<string, Source>, now: int, cs: seq<Classification>, docs: seq<Document>,
                            r: Requirement) returns (x: RequirementReport)
    requires r in m.requirements
    ensures x in Reports(m, index, now, cs, docs) && x.id == r.id
  {
    OrderedMembers(m);
    var i :| 0 <= i < |Ordered(m)| && Ordered(m)[i] == r;
    x := Reports(m, index, now, cs, docs)[i];
  }

  lemma SameIds(m: Mission, index: map<string, Source>, now: int, cs: seq<Classification>, docs: seq<Document>)
    ensures (set x | x in Reports(m, index, now, cs, docs) :: x.id) == (set r | r in m.requirements :: r.id)
  {
    var rs := Reports(m, index, now, cs, docs);
    forall x | x in rs ensures exists r :: r in m.requirements && r.id == x.id {
      var r := EntryIsOfMission(m, index, now, cs, docs, x);
    }
    forall r | r in m.requirements ensures exists x :: x in rs && x.id == r.id {
      var x := RequirementHasEntry(m, index, now, cs, docs, r);
    }
  }

  lemma PrefixRoundTrip(i: string)
    ensures StartsWith(INTENT_PREFIX + i, INTENT_PREFIX) && IntentIn(MissingIntent(INTENT_PREFIX + i)) == i
  {
    assert (INTENT_PREFIX + i)[..|INTENT_PREFIX|] == INTENT_PREFIX;
    assert (INTENT_PREFIX + i)[|INTENT_PREFIX|..] == i;
  }

  lemma GapsReadBack(r: Requirement, qs: seq<Classification>)
    ensures Readable(r, GapsOf(r, qs))
    ensures Uncovered(r, GapsOf(r, qs)) == set i | i in r.intents && i !in CoveredIntents(qs)
  {
    forall i ensures StartsWith(INTENT_PREFIX + i, INTENT_PREFIX) && IntentIn(MissingIntent(INTENT_PREFIX + i)) == i {
      PrefixRoundTrip(i);
    }
    forall i | i in r.intents && i !in CoveredIntents(qs) ensures i in Uncovered(r, GapsOf(r, qs)) {
      assert MissingIntent(INTENT_PREFIX + i) in GapsOf(r, qs);
    }
  }

  lemma MoreUrgentIsPreorder()
    ensures Preorder(MoreUrgent)
  {
    forall x, y ensures MoreUrgent(x, y) || MoreUrgent(y, x) {
      StringLeTotal(x.category, y.category);
      StringLeTotal(x.id, y.id);
    }
    forall x, y, z | MoreUrgent(x, y) && MoreUrgent(y, z) ensures MoreUrgent(x, z) {
      MoreUrgentTransitive(x, y, z);
    }
  }

  lemma MoreUrgentTransitive(x: RequirementReport, y: RequirementReport, z: RequirementReport)
    requires MoreUrgent(x, y) && MoreUrgent(y, z)
    ensures MoreUrgent(x, z)
  {
    if Rank(x.safety) == Rank(z.safety) {
      StringLeTotal(x.category, y.category);
      StringLeTotal(y.category, z.category);
      StringLeTransitive(x.category, y.category, z.category);
      if x.category == z.category {
        StringLeTransitive(x.id, y.id, z.id);
      }
    }
  }

  lemma GapReportMembers(b: ReportBody)
    ensures forall x :: x in GapReports(b) <==> x in b.requirements && x.status == GAP
    ensures Sorting.Sorted(GapReports(b), MoreUrgent)
  {
    var gaps := Where(b.requirements, (x: RequirementReport) => x.status == GAP);
    WhereMembers(b.requirements, (x: RequirementReport) => x.status == GAP);
    MoreUrgentIsPreorder();
    SortSorts(gaps, MoreUrgent);
    forall x ensures x in GapReports(b) <==> x in gaps {
      PermutationMembers(GapReports(b), gaps, x);
    }
  }

  lemma PlannedEntry(m: Mission, index: map<string, Source>, now: int, cs: seq<Classification>, docs: seq<Document>,
                     x: RequirementReport) returns (r: Requirement)
    requires MissionOk(m) && x in Reports(m, index, now, cs, docs)
    ensures r in m.requirements && Find(m, x.id) == Some(r) && Matches(m, x)
    ensures x.gaps == GapsOf(r, Qualifying(m, index, now, r, cs))
    ensures ReportedReadably(m, x)
    ensures Uncovered(r, x.gaps) == set i | i in r.intents && !Supported(m, index, now, r, cs, i)
  {
    r := EntryIsOfMission(m, index, now, cs, docs, x);
    FindIs(m, r);
    GapsReadBack(r, Qualifying(m, index, now, r, cs));
    QualifyingMembers(m, index, now, r, cs);
  }

  /** Sourcing accepts every planned report, whatever the bound on items. */
  lemma PlannedReportIsBuildable(m: Mission, g: Registry, now: int, cs: seq<Classification>, docs: seq<Document>, maxItems: int)
    requires Plannable(m, g, cs, docs) && 1 <= maxItems <= MAX_WORK_ITEMS
    ensures Buildable(m, Plan(m, g, now, cs, docs), maxItems)
  {
    var report := Plan(m, g, now, cs, docs);
    PlanMeetsContract(m, g, now, cs, docs);
    SameIds(m, Index(g.sources), now, cs, docs);
    forall x | x in report.body.requirements ensures Matches(m, x) && ReportedReadably(m, x) {
      var r := PlannedEntry(m, Index(g.sources), now, cs, docs, x);
    }
    GapReportMembers(report.body);
    forall k | 0 <= k < Emitted(report.body, maxItems) ensures ReportedReadably(m, GapReports(report.body)[k]) {
      assert GapReports(report.body)[k] in GapReports(report.body);
    }
  }

  /** The uncovered intents of an item are exactly the required intents that no classification passing
      every gate supports. */
  lemma ItemsNameExactlyTheUncovered(m: Mission, g: Registry, now: int, cs: seq<Classification>, docs: seq<Document>, k: nat)
    returns (r: Requirement)
    requires MissionOk(m) && k < |GapReports(Plan(m, g, now, cs, docs).body)|
    ensures r in m.requirements
    ensures ReportedReadably(m, GapReports(Plan(m, g, now, cs, docs).body)[k])
    ensures var item := ItemFor(m, GapReports(Plan(m, g, now, cs, docs).body)[k], k + 1);
            && item.requirementId == r.id && item.requiredIntents == r.intents
            && item.uncoveredIntents == set i | i in r.intents && !Supported(m, Index(g.sources), now, r, cs, i)
  {
    var b := Plan(m, g, now, cs, docs).body;
    GapReportMembers(b);
    var x := GapReports(b)[k];
    assert x in GapReports(b);
    r := PlannedEntry(m, Index(g.sources), now, cs, docs, x);
  }

  /** Items come in order of urgency, and nothing left out is more urgent than anything emitted. */
  lemma MostUrgentFirst(b: ReportBody, maxItems: nat, x: RequirementReport, k: nat)
    requires x in b.requirements && x.status == GAP && k < Emitted(b, maxItems)
    requires forall j :: 0 <= j < Emitted(b, maxItems) ==> GapReports(b)[j] != x
    ensures MoreUrgent(GapReports(b)[k], x) && Rank(GapReports(b)[k].safety) >= Rank(x.safety)
  {
    GapReportMembers(b);
    var i :| 0 <= i < |GapReports(b)| && GapReports(b)[i] == x;
  }
}
