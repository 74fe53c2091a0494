/** What sourcing takes and what a work item says, on the fields of mission, report and classifications. */
module SourcingMeaning {
  import opened Crypto
  import opened Sorting
  import opened Coverage
  import opened CoverageReports
  import opened CoverageMeaning
  import opened Sourcing

  /** A gap about an intent is the fixed sentence followed by an intent of the requirement. */
  predicate NamesIntent(r: Requirement, g: Gap) {
    g.MissingIntent? ==> exists i :: i in r.intents && g.message == "no classification supports intent: " + i
  }

  lemma ReadableIff(r: Requirement, gaps: set<Gap>)
    ensures Readable(r, gaps) <==> forall g :: g in gaps ==> NamesIntent(r, g)
  {
    forall g ensures GapReadable(r, g) <==> NamesIntent(r, g) {
      if GapReadable(r, g) && g.MissingIntent? {
        assert g.message == INTENT_PREFIX + IntentIn(g);
      }
      if NamesIntent(r, g) && g.MissingIntent? {
        var i :| i in r.intents && g.message == "no classification supports intent: " + i;
        PrefixRoundTrip(i);
        assert g == MissingIntent(INTENT_PREFIX + i);
      }
    }
  }

  /** The report is about this mission: its event, exactly its requirements, each in its category and class. */
  ghost predicate AboutMission(m: Mission, b: ReportBody) {
    && b.missionId == m.id && b.eventId == m.eventId
    && (forall id :: Reported(b, id) <==> Required(m, id))
    && forall x :: x in b.requirements ==>
         exists r :: r in m.requirements && r.id == x.id && r.category == x.category && r.safety == x.safety
  }

  lemma MatchesIff(m: Mission, x: RequirementReport)
    requires MissionOk(m)
    ensures Matches(m, x) <==> exists r :: r in m.requirements && r.id == x.id && r.category == x.category && r.safety == x.safety
  {
    if r :| r in m.requirements && r.id == x.id {
      FindIs(m, r);
      forall q | q in m.requirements && q.id == x.id ensures q == r {
        FindIs(m, q);
      }
    }
    FoundIsOfMission(m.requirements, x.id, |m.requirements|);
  }

  lemma {:induction false} FoundIsOfMission(rs: seq<Requirement>, id: string, n: nat)
    requires n <= |rs|
    ensures FindTo(rs, id, n).Some? ==> FindTo(rs, id, n).value in rs && FindTo(rs, id, n).value.id == id
  {
    if n > 0 {
      FoundIsOfMission(rs, id, n - 1);
    }
  }

  lemma RequiredIff(m: Mission, id: string)
    ensures id in (set r | r in m.requirements :: r.id) <==> exists r :: r in m.requirements && r.id == id
  {
  }

  lemma ReportedIff(b: ReportBody, id: string)
    ensures id in (set x | x in b.requirements :: x.id) <==> exists x :: x in b.requirements && x.id == id
  {
  }

  lemma SameSetIff(a: set<string>, b: set<string>)
    ensures a == b <==> (forall id :: id in a ==> id in b) && forall id :: id in b ==> id in a
  {
  }

  ghost predicate Required(m: Mission, id: string) {
    exists r :: r in m.requirements && r.id == id
  }

  ghost predicate Reported(b: ReportBody, id: string) {
    exists x :: x in b.requirements && x.id == id
  }

  lemma SameIdsIff(m: Mission, b: ReportBody)
    ensures (set x | x in b.requirements :: x.id) == (set r | r in m.requirements :: r.id) <==>
            forall id :: Reported(b, id) <==> Required(m, id)
  {
    var reported, required := set x | x in b.requirements :: x.id, set r | r in m.requirements :: r.id;
    forall id ensures (id in reported <==> Reported(b, id)) && (id in required <==> Required(m, id)) {
      ReportedIff(b, id);
      RequiredIff(m, id);
    }
    SameSetIff(reported, required);
    if forall id :: Reported(b, id) <==> Required(m, id) {
      assert forall id :: id in reported <==> id in required;
    }
    if reported == required {
      forall id ensures Reported(b, id) <==> Required(m, id) {
        assert id in reported <==> id in required;
      }
    }
  }

  lemma AlignedIff(m: Mission, b: ReportBody)
    requires MissionOk(m)
    ensures Aligned(m, b) <==> AboutMission(m, b)
  {
    SameIdsIff(m, b);
    forall x ensures Matches(m, x) <==> exists r :: r in m.requirements && r.id == x.id && r.category == x.category && r.safety == x.safety {
      MatchesIff(m, x);
    }
  }

  /** Sourcing takes at most a hundred items' worth of a report that keeps the validator's rules, is about a valid
      mission, and whose first gaps can be read. */
  lemma BuildableIff(m: Mission, report: Report, maxItems: int)
    ensures Buildable(m, report, maxItems) <==>
            && 0 < maxItems && maxItems < 101 && MissionOk(m) && AboutMission(m, report.body)
            && report.id == Sha256(report.body) && ReportContract(report)
            && forall k :: 0 <= k < |GapReports(report.body)| && k < maxItems ==> ReportedReadably(m, GapReports(report.body)[k])
  {
    if MissionOk(m) {
      AlignedIff(m, report.body);
    }
  }

  /** The gaps come most severe first, then by category, then by requirement. */
  lemma GapsAreRanked(b: ReportBody, j: nat, k: nat)
    requires j < k < |GapReports(b)|
    ensures var x, y := GapReports(b)[j], GapReports(b)[k];
            && x in b.requirements && y in b.requirements && x.status == GAP && y.status == GAP
            && AsSafe(x.safety, y.safety)
            && (x.safety == y.safety ==> StringLe(x.category, y.category))
            && (x.safety == y.safety && x.category == y.category ==> StringLe(x.id, y.id))
  {
    GapReportMembers(b);
    var x, y := GapReports(b)[j], GapReports(b)[k];
    assert x in GapReports(b) && y in GapReports(b);
    assert MoreUrgent(x, y);
    MoreUrgentMeans(x, y);
  }

  lemma MoreUrgentMeans(x: RequirementReport, y: RequirementReport)
    requires MoreUrgent(x, y)
    ensures AsSafe(x.safety, y.safety)
    ensures x.safety == y.safety ==> StringLe(x.category, y.category)
    ensures x.safety == y.safety && x.category == y.category ==> StringLe(x.id, y.id)
  {
    RankIsSafety(x.safety, y.safety);
    StringLeTotal(x.category, x.category);
  }

  lemma UncoveredAre(m: Mission, g: Registry, now: int, r: Requirement, cs: seq<Classification>)
    requires RegistryOk(g)
    ensures (set i | i in r.intents && !Supported(m, Index(g.sources), now, r, cs, i)) ==
            set i | i in r.intents && !exists c :: c in cs && Trusted(m, g.sources, now, r, c) && i in c.intents
  {
    forall i ensures Supported(m, Index(g.sources), now, r, cs, i) <==>
                     exists c :: c in cs && Trusted(m, g.sources, now, r, c) && i in c.intents {
      SupportedIff(m, g, now, r, cs, i);
    }
  }

  /** The k-th item of a planned report, field by field: the requirement it is about, the intents nobody trusted
      supports, the sources it can count on, and how many more it needs. */
  lemma ItemOnFields(m: Mission, g: Registry, now: int, cs: seq<Classification>, docs: seq<Document>, k: nat)
    returns (r: Requirement)
    requires MissionOk(m) && RegistryOk(g) && k < |GapReports(Plan(m, g, now, cs, docs).body)|
    ensures r in m.requirements && ReportedReadably(m, GapReports(Plan(m, g, now, cs, docs).body)[k])
    ensures var item := ItemFor(m, GapReports(Plan(m, g, now, cs, docs).body)[k], k + 1);
            var trusted := TrustedSources(m, g.sources, now, r, cs);
            && item.rank == k + 1 && item.requirementId == r.id && item.category == r.category && item.safety == r.safety
            && item.requiredIntents == r.intents && item.minimumSources == r.minimumSources
            && item.uncoveredIntents ==
                 (set i | i in r.intents && !exists c :: c in cs && Trusted(m, g.sources, now, r, c) && i in c.intents)
            && item.qualifyingSources == trusted
            && item.additionalSources == (if r.minimumSources > |trusted| then r.minimumSources - |trusted| else 0)
  {
    r := ItemsNameExactlyTheUncovered(m, g, now, cs, docs, k);
    UncoveredAre(m, g, now, r, cs);
    var b := Plan(m, g, now, cs, docs).body;
    GapReportMembers(b);
    var x := GapReports(b)[k];
    assert x in GapReports(b);
    var q := EntryIsOfMission(m, Index(g.sources), now, cs, docs, x);
    FindIs(m, q);
    FindIs(m, r);
    SourcesAre(m, g, now, r, cs);
  }

  /** The kinds of gap of a requirement. */
  lemma GapCodesMean(r: Requirement, qs: seq<Classification>)
    ensures var codes := set g | g in GapsOf(r, qs) :: CodeOf(g);
            && (MISSING_INTENT in codes <==> exists i :: i in r.intents && i !in CoveredIntents(qs))
            && (INSUFFICIENT_QUALIFYING_SOURCES in codes <==> |SourcesOf(qs)| < r.minimumSources)
            && (NO_QUALIFYING_CLASSIFICATION in codes <==> |qs| == 0)
  {
    var gaps := GapsOf(r, qs);
    if i :| i in r.intents && i !in CoveredIntents(qs) {
      assert MissingIntent(INTENT_PREFIX + i) in gaps;
    }
    if |SourcesOf(qs)| < r.minimumSources {
      assert InsufficientSources(|SourcesOf(qs)|, r.minimumSources) in gaps;
    }
    if qs == [] {
      assert NoQualifyingClassification in gaps;
    }
  }

  /** The plan says how many gaps there are and how many were left out. */
  lemma PlanCounts(m: Mission, report: Report, items: seq<WorkItem>, maxItems: nat)
    requires |items| == Emitted(report.body, maxItems)
    ensures var p := PlanOf(m, report, items);
            && p.items == items && p.missionId == m.id && p.eventId == m.eventId && p.reportId == report.id
            && p.asOf == report.body.asOf && p.available == p.omitted + |items| && (p.truncated <==> p.omitted > 0)
            && p.available == |GapReports(report.body)| && (p.omitted > 0 ==> |items| == maxItems)
  {
  }
}
