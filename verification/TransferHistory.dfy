/** What an import state is: the history of a site's commits, and with it what the site takes next. */
module TransferHistory {
  import opened Prelude
  import opened Transfer
  import opened TransferImport
  import opened TransferMeaning

  function MediaOf(commits: seq<Committed>, site: string): seq<string> {
    if commits == [] then []
    else
      var c := commits[|commits| - 1];
      MediaOf(commits[..|commits| - 1], site) + if c.site == site then [c.verified.manifest.identity.mediaId] else []
  }

  /** The sequence of the site's last commit, or 0. */
  function LastSequence(commits: seq<Committed>, site: string): int {
    if commits == [] then 0
    else
      var c := commits[|commits| - 1];
      if c.site == site then c.verified.manifest.identity.sequence else LastSequence(commits[..|commits| - 1], site)
  }

  lemma HistorySnoc(commits: seq<Committed>, c: Committed, site: string)
    ensures MediaOf(commits + [c], site) == MediaOf(commits, site) + if c.site == site then [c.verified.manifest.identity.mediaId] else []
    ensures LastSequence(commits + [c], site) ==
            if c.site == site then c.verified.manifest.identity.sequence else LastSequence(commits, site)
  {
    assert (commits + [c])[..|commits|] == commits;
  }

  lemma StepKeepsHistory(verdict: Verdict, w: World, e: Event, site: string)
    requires StateOf(SiteOf(w, site)) == ImportState(LastSequence(w.commits, site), MediaOf(w.commits, site))
    ensures var after := Step(verdict, w, e);
            StateOf(SiteOf(after, site)) == ImportState(LastSequence(after.commits, site), MediaOf(after.commits, site))
  {
    var s := SiteOf(w, e.site);
    if e.CommitStep? && s.progress.Placed? {
      HistorySnoc(w.commits, Committed(e.site, s.progress.verified), site);
    }
  }

  /** Over any run, the import state of a site holds the sequence of its last commit and the media of all of them, in
      order, and nothing else. */
  lemma {:induction false} StateIsHistory(verdict: Verdict, es: seq<Event>, site: string)
    ensures var w := Run(verdict, es);
            StateOf(SiteOf(w, site)) == ImportState(LastSequence(w.commits, site), MediaOf(w.commits, site))
    decreases |es|
  {
    if es != [] {
      StateIsHistory(verdict, es[..|es| - 1], site);
      StepKeepsHistory(verdict, Run(verdict, es[..|es| - 1]), es[|es| - 1], site);
    }
  }

  /** After any run, a site takes a set exactly when it is one its configuration takes, newer than its last commit and
      on media it never committed. */
  lemma TakenAfterRun(c: Config, es: seq<Event>, site: string, files: Files, v: Verified)
    ensures var w := Run(VerdictOf(c), es);
            VerdictOf(c)(files, StateOf(SiteOf(w, site))) == Some(v) <==>
            Taken(c.platform, files, v, c.accepts.(floor := LastSequence(w.commits, site), used := MediaOf(w.commits, site)))
  {
    StateIsHistory(VerdictOf(c), es, site);
    var st := StateOf(SiteOf(Run(VerdictOf(c), es), site));
    AcceptableIff(c.platform, files, v, Now(c, st));
    if Acceptable(c.platform, files, v, Now(c, st)) {
      VerdictIs(c, files, st, v);
    }
  }

  /** What an inbox holds under a digest verified as a set of that digest. */
  lemma InboxHoldsVerified(verdict: Verdict, clear: (Files, Files) -> bool, es: seq<Event>, site: string, hex: string)
    requires Reliable(verdict, clear) && hex in SiteOf(Run(verdict, es), site).transfers
    ensures exists st :: verdict(SiteOf(Run(verdict, es), site).transfers[hex], st).Some?
                         && verdict(SiteOf(Run(verdict, es), site).transfers[hex], st).value.hex == hex
  {
    RunKeepsInv(verdict, clear, es, site);
    assert Sound(verdict, hex, SiteOf(Run(verdict, es), site).transfers[hex]);
  }

  /** An import without a stop commits what verifies, if its place is free or holds a set of the same digest that
      verifies too, and changes nothing otherwise. */
  lemma OneImport(verdict: Verdict, s: Site, files: Files)
    requires s.progress == Idle
    ensures var t, seen := Commit(Place(verdict, Check(verdict, s, files))), verdict(files, StateOf(s));
            && t.progress == Idle
            && if seen.None? then t == s
               else
                 var hex, i := seen.value.hex, seen.value.manifest.identity;
                 if hex in s.transfers && !SameSet(seen, verdict(s.transfers[hex], StateOf(s))) then t == s
                 else && t.state == Some(ImportState(i.sequence, StateOf(s).used + [i.mediaId]))
                      && t.transfers == if hex in s.transfers then s.transfers else s.transfers[hex := files]
  {
  }
}
