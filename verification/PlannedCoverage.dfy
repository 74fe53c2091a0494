/** From planning to promotion: when the coverage report of a plan passes the promotion gate. */
module PlannedCoverage {
  import opened Prelude
  import opened Crypto
  import opened Sorting
  import Coverage
  import CoverageReports
  import CoverageMeaning
  import opened Promotion
  import opened ReleaseSigning
  import opened GovernedDistribution

  /** A coverage report as the promotion gate reads it. `idText` writes its ID as text. */
  ghost function EvidenceOf(r: Coverage.Report, version: string, idText: Digest<Coverage.ReportBody> -> string): CoverageEvidence {
    CoverageEvidence(
      CoverageReports.ReportContract(r),
      map[SchemaVersionId := version, ReportId := idText(r.id), MissionProfileId := r.body.missionId,
          EventId := r.body.eventId, RegistryId := r.body.registryId],
      r.body.decision == Coverage.ALL_COVERED,
      Statuses(r.body.requirements))
  }

  function Statuses(rs: seq<Coverage.RequirementReport>): seq<bool> {
    seq(|rs|, i requires 0 <= i < |rs| => rs[i].status == Coverage.COVERED)
  }

  /** Every requirement is answered from trusted classifications, and its documents do not disagree. */
  ghost predicate MissionCovered(m: Coverage.Mission, g: Coverage.Registry, now: int,
                                 cs: seq<Coverage.Classification>, docs: seq<Coverage.Document>) {
    forall r :: r in m.requirements ==> RequirementCovered(m, g, now, cs, docs, r)
  }

  ghost predicate RequirementCovered(m: Coverage.Mission, g: Coverage.Registry, now: int,
                                     cs: seq<Coverage.Classification>, docs: seq<Coverage.Document>, r: Coverage.Requirement) {
    !CoverageMeaning.Disagree(r, cs, docs) && CoverageMeaning.Answered(m, g.sources, now, r, cs)
  }

  lemma DecisionIff(rs: seq<Coverage.RequirementReport>)
    ensures Coverage.DecisionOf(rs) == Coverage.ALL_COVERED <==> forall i :: 0 <= i < |rs| ==> rs[i].status == Coverage.COVERED
  {
  }

  lemma OrderedMembers(m: Coverage.Mission, r: Coverage.Requirement)
    ensures r in Coverage.Ordered(m) <==> r in m.requirements
  {
    CoverageReports.ByRequirementIdIsPreorder();
    SortSorts(m.requirements, Coverage.ByRequirementId);
    PermutationMembers(Coverage.Ordered(m), m.requirements, r);
  }

  lemma AllCoveredIff(m: Coverage.Mission, g: Coverage.Registry, now: int, cs: seq<Coverage.Classification>,
                      docs: seq<Coverage.Document>)
    requires Coverage.RegistryOk(g)
    ensures Coverage.Plan(m, g, now, cs, docs).body.decision == Coverage.ALL_COVERED <==> MissionCovered(m, g, now, cs, docs)
  {
    var index, rs := Coverage.Index(g.sources), Coverage.Ordered(m);
    var reports := Coverage.Reports(m, index, now, cs, docs);
    DecisionIff(reports);
    forall i | 0 <= i < |rs|
      ensures reports[i].status == Coverage.COVERED <==> RequirementCovered(m, g, now, cs, docs, rs[i])
      ensures rs[i] in m.requirements
    {
      assert reports[i] == Coverage.ReportFor(m, index, now, cs, docs, rs[i]);
      CoverageMeaning.StatusOnFields(m, g, now, rs[i], cs, docs);
      OrderedMembers(m, rs[i]);
    }
    forall r | r in m.requirements ensures exists i :: 0 <= i < |rs| && rs[i] == r {
      OrderedMembers(m, r);
    }
  }

  lemma GateIsNaming(e: Evidence, c: CoverageEvidence)
    requires c.contractOk && (c.covered ==> AllTrue(c.requirements))
    ensures CoverageGate(e, c) <==> c.covered && NamedEverywhere(e, c)
  {
  }

  /** A planned report passes the coverage gate of promotion if and only if every requirement of the mission
      is covered and the evidence names the report: the plan's contract and its statuses never stand in the
      way. */
  lemma PlannedReportPassesIff(e: Evidence, m: Coverage.Mission, g: Coverage.Registry, now: int,
                               cs: seq<Coverage.Classification>, docs: seq<Coverage.Document>, version: string,
                               idText: Digest<Coverage.ReportBody> -> string)
    requires Coverage.MissionOk(m) && Coverage.RegistryOk(g)
    ensures var c := EvidenceOf(Coverage.Plan(m, g, now, cs, docs), version, idText);
            CoverageGate(e, c) <==> MissionCovered(m, g, now, cs, docs) && NamedEverywhere(e, c)
  {
    var r := Coverage.Plan(m, g, now, cs, docs);
    CoverageReports.PlanMeetsContract(m, g, now, cs, docs);
    DecisionIff(r.body.requirements);
    AllCoveredIff(m, g, now, cs, docs);
    GateIsNaming(e, EvidenceOf(r, version, idText));
  }

  /** The governed pipeline carries this through: an honest bundle whose promotion was given a planned
      coverage report releases a corpus that covers every requirement of the mission. */
  lemma HonestBundleCoversMission(e: Evidence, order: Order, p: Pipeline, b: Bundle, signed: Signed, m: Coverage.Mission,
                                  g: Coverage.Registry, now: int, cs: seq<Coverage.Classification>,
                                  docs: seq<Coverage.Document>, version: string,
                                  idText: Digest<Coverage.ReportBody> -> string)
    requires Honest(p, b, signed) && b.report == Promoted(e, GovernedV1, order)
    requires Coverage.MissionOk(m) && Coverage.RegistryOk(g)
    requires e.coverage == Some(EvidenceOf(Coverage.Plan(m, g, now, cs, docs), version, idText))
    ensures MissionCovered(m, g, now, cs, docs)
  {
    HonestBundlePassedEveryGate(e, order, p, b, signed);
    PlannedReportPassesIff(e, m, g, now, cs, docs, version, idText);
  }
}
