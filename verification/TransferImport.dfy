/**
 Importing verified transfer sets into the inboxes of several sites. Two writes are durable: renaming
 the copied set to its digest and replacing the site's import state. Sites proceed independently, one
 import at a time each, and any of them may stop between two steps.
 */
module TransferImport {
  import opened Prelude
  import opened Transfer
  import opened TransferRoundTrip

  datatype ImportState = ImportState(floor: int, used: seq<string>)

  /** What verification says of a set under an import state. */
  type Verdict = (Files, ImportState) -> Option<Verified>

  /** An import in progress, lost when the importer stops. */
  datatype Progress = Idle | Checked(files: Files, verified: Verified) | Placed(verified: Verified)

  datatype Site = Site(state: Option<ImportState>, transfers: map<string, Files>, progress: Progress)

  const EMPTY_SITE := Site(None, map[], Idle)

  function StateOf(s: Site): ImportState {
    s.state.GetOr(ImportState(0, []))
  }

  function Check(verdict: Verdict, s: Site, files: Files): Site {
    if s.progress != Idle then s
    else
      match verdict(files, StateOf(s))
      case Some(v) => s.(progress := Checked(files, v))
      case None => s
  }

  /** Rename the copy into place, or verify the copy that is already there. */
  function Place(verdict: Verdict, s: Site): Site {
    if !s.progress.Checked? then s
    else
      var hex := s.progress.verified.hex;
      if hex !in s.transfers
      then s.(transfers := s.transfers[hex := s.progress.files], progress := Placed(s.progress.verified))
      else
        match verdict(s.transfers[hex], StateOf(s))
        case Some(w) => if w.hex == hex then s.(progress := Placed(s.progress.verified)) else s.(progress := Idle)
        case None => s.(progress := Idle)
  }

  function Advance(st: ImportState, v: Verified): ImportState {
    ImportState(v.manifest.identity.sequence, st.used + [v.manifest.identity.mediaId])
  }

  function Commit(s: Site): Site {
    if !s.progress.Placed? then s
    else s.(state := Some(Advance(StateOf(s), s.progress.verified)), progress := Idle)
  }

  // ---------------------------------------------------------------- runs of several sites

  datatype Event =
    | CheckStep(site: string, files: Files)
    | PlaceStep(site: string)
    | CommitStep(site: string)
    | StopStep(site: string)

  datatype Committed = Committed(site: string, verified: Verified)

  datatype World = World(sites: map<string, Site>, commits: seq<Committed>)

  const START := World(map[], [])

  function SiteOf(w: World, site: string): Site {
    if site in w.sites then w.sites[site] else EMPTY_SITE
  }

  function SiteStep(verdict: Verdict, s: Site, e: Event): Site {
    match e
    case CheckStep(_, files) => Check(verdict, s, files)
    case PlaceStep(_) => Place(verdict, s)
    case CommitStep(_) => Commit(s)
    case StopStep(_) => s.(progress := Idle)
  }

  function Step(verdict: Verdict, w: World, e: Event): World {
    var s := SiteOf(w, e.site);
    World(w.sites[e.site := SiteStep(verdict, s, e)],
          if e.CommitStep? && s.progress.Placed? then w.commits + [Committed(e.site, s.progress.verified)] else w.commits)
  }

  function Run(verdict: Verdict, es: seq<Event>): World
    decreases |es|
  {
    if es == [] then START else Step(verdict, Run(verdict, es[..|es| - 1]), es[|es| - 1])
  }

  // ---------------------------------------------------------------- invariants

  /** Nothing of the manifest the site does not expect now. */
  predicate Advances(st: ImportState, v: Verified) {
    v.manifest.identity.sequence > st.floor && v.manifest.identity.mediaId !in st.used
  }

  /** What the protocol relies on: an accepted set advances the import state, and a set accepted under
      any state is accepted whenever another one with its digest is, unless a hash collides. */
  ghost predicate Reliable(verdict: Verdict, clear: (Files, Files) -> bool) {
    && (forall f, st :: verdict(f, st).Some? ==> Advances(st, verdict(f, st).value))
    && forall f, g, st, earlier :: SameSet(verdict(f, st), verdict(g, earlier)) && clear(f, g) ==>
         verdict(g, st) == verdict(f, st)
  }

  predicate SameSet(a: Option<Verified>, b: Option<Verified>) {
    a.Some? && b.Some? && a.value.hex == b.value.hex
  }

  /** The set was accepted when the import state was some earlier one. */
  ghost predicate Sound(verdict: Verdict, hex: string, files: Files) {
    exists st :: verdict(files, st).Some? && verdict(files, st).value.hex == hex
  }

  ghost predicate SiteInv(verdict: Verdict, s: Site) {
    && (forall hex :: hex in s.transfers ==> Sound(verdict, hex, s.transfers[hex]))
    && match s.progress
       case Idle => true
       case Checked(files, v) => verdict(files, StateOf(s)) == Some(v)
       case Placed(v) => v.hex in s.transfers && Advances(StateOf(s), v)
  }

  lemma SiteStepKeepsInv(verdict: Verdict, clear: (Files, Files) -> bool, s: Site, e: Event)
    requires Reliable(verdict, clear) && SiteInv(verdict, s)
    ensures SiteInv(verdict, SiteStep(verdict, s, e))
  {
    if e.PlaceStep? && s.progress.Checked? {
      assert Sound(verdict, s.progress.verified.hex, s.progress.files);
    }
  }

  predicate BelongsTo(x: Committed, site: string) {
    x.site == site
  }

  /** The import state of the site is the last of its commits and lists all their media. */
  ghost predicate CommitsInv(w: World, site: string) {
    && (forall i :: 0 <= i < |w.commits| && BelongsTo(w.commits[i], site) ==>
          && w.commits[i].verified.hex in SiteOf(w, site).transfers
          && w.commits[i].verified.manifest.identity.sequence <= StateOf(SiteOf(w, site)).floor
          && w.commits[i].verified.manifest.identity.mediaId in StateOf(SiteOf(w, site)).used)
    && forall i, j :: 0 <= i < j < |w.commits| && BelongsTo(w.commits[i], site) && BelongsTo(w.commits[j], site) ==>
         InOrder(w.commits[i].verified, w.commits[j].verified)
  }

  predicate InOrder(v: Verified, w: Verified) {
    && v.manifest.identity.sequence < w.manifest.identity.sequence
    && v.manifest.identity.mediaId != w.manifest.identity.mediaId
  }

  /** What a commit adds and what it leaves of its site. */
  lemma CommitKeepsCommits(w: World, after: World, site: string, v: Verified)
    requires CommitsInv(w, site) && Advances(StateOf(SiteOf(w, site)), v)
    requires after.commits == w.commits + [Committed(site, v)]
    requires v.hex in SiteOf(after, site).transfers && SiteOf(after, site).transfers == SiteOf(w, site).transfers
    requires StateOf(SiteOf(after, site)) == Advance(StateOf(SiteOf(w, site)), v)
    ensures CommitsInv(after, site)
  {
    forall i | 0 <= i < |w.commits| && BelongsTo(w.commits[i], site)
      ensures after.commits[i] == w.commits[i] && InOrder(w.commits[i].verified, v)
    {
      assert w.commits[i].verified.manifest.identity.mediaId in StateOf(SiteOf(w, site)).used;
    }
  }

  lemma OtherStepKeepsCommits(w: World, after: World, site: string)
    requires CommitsInv(w, site)
    requires |w.commits| <= |after.commits| && after.commits[..|w.commits|] == w.commits
    requires forall i :: |w.commits| <= i < |after.commits| ==> !BelongsTo(after.commits[i], site)
    requires StateOf(SiteOf(after, site)) == StateOf(SiteOf(w, site))
    requires forall hex :: hex in SiteOf(w, site).transfers ==> hex in SiteOf(after, site).transfers
    ensures CommitsInv(after, site)
  {
    assert forall i :: 0 <= i < |w.commits| ==> after.commits[i] == w.commits[i];
  }

  lemma StepKeepsCommits(verdict: Verdict, w: World, e: Event, site: string)
    requires SiteInv(verdict, SiteOf(w, e.site)) && CommitsInv(w, site)
    ensures CommitsInv(Step(verdict, w, e), site)
  {
    var s, after := SiteOf(w, e.site), Step(verdict, w, e);
    if e.CommitStep? && s.progress.Placed? && e.site == site {
      CommitKeepsCommits(w, after, site, s.progress.verified);
    } else {
      OtherStepKeepsCommits(w, after, site);
    }
  }

  lemma {:induction false} RunKeepsInv(verdict: Verdict, clear: (Files, Files) -> bool, es: seq<Event>, site: string)
    requires Reliable(verdict, clear)
    ensures SiteInv(verdict, SiteOf(Run(verdict, es), site)) && CommitsInv(Run(verdict, es), site)
    decreases |es|
  {
    if es != [] {
      var before, e := es[..|es| - 1], es[|es| - 1];
      RunKeepsInv(verdict, clear, before, site);
      RunKeepsInv(verdict, clear, before, e.site);
      SiteStepKeepsInv(verdict, clear, SiteOf(Run(verdict, before), e.site), e);
      StepKeepsCommits(verdict, Run(verdict, before), e, site);
    }
  }

  // ---------------------------------------------------------------- theorems

  /** Over any interleaving of import steps and stops, the commits of a site have strictly increasing
      sequences and different media, and the sets they committed stay in its inbox. */
  lemma CommitsAdvance(verdict: Verdict, clear: (Files, Files) -> bool, es: seq<Event>, w: World, i: nat, j: nat)
    requires Reliable(verdict, clear) && w == Run(verdict, es)
    requires i < j < |w.commits| && w.commits[i].site == w.commits[j].site
    ensures InOrder(w.commits[i].verified, w.commits[j].verified)
    ensures w.commits[i].verified.hex in SiteOf(w, w.commits[i].site).transfers
  {
    RunKeepsInv(verdict, clear, es, w.commits[i].site);
    assert BelongsTo(w.commits[i], w.commits[i].site) && BelongsTo(w.commits[j], w.commits[i].site);
  }

  /** Retrying an import that stopped between the rename and the state write commits the same set: it
      succeeds on any media with that digest that verifies now, and leaves the inbox copy unchanged. */
  lemma RetryCommitsSameSet(verdict: Verdict, clear: (Files, Files) -> bool, s: Site, files: Files, v: Verified)
    requires Reliable(verdict, clear) && SiteInv(verdict, s) && s.progress == Idle
    requires verdict(files, StateOf(s)) == Some(v) && v.hex in s.transfers && clear(files, s.transfers[v.hex])
    ensures verdict(s.transfers[v.hex], StateOf(s)) == Some(v)
    ensures Commit(Place(verdict, Check(verdict, s, files))) == s.(state := Some(Advance(StateOf(s), v)))
  {
    assert Sound(verdict, v.hex, s.transfers[v.hex]);
    var earlier :| verdict(s.transfers[v.hex], earlier).Some? && verdict(s.transfers[v.hex], earlier).value.hex == v.hex;
    assert SameSet(verdict(files, StateOf(s)), verdict(s.transfers[v.hex], earlier));
  }

  /** An import that stopped after the rename and is then retried ends where one import would have. */
  lemma StopAndRetryIsOneImport(verdict: Verdict, clear: (Files, Files) -> bool, s: Site, files: Files, v: Verified)
    requires Reliable(verdict, clear) && SiteInv(verdict, s) && s.progress == Idle
    requires verdict(files, StateOf(s)) == Some(v) && v.hex !in s.transfers && clear(files, files)
    ensures var stopped := Place(verdict, Check(verdict, s, files)).(progress := Idle);
            Commit(Place(verdict, Check(verdict, stopped, files))) == Commit(Place(verdict, Check(verdict, s, files)))
  {
    var stopped := Place(verdict, Check(verdict, s, files)).(progress := Idle);
    assert Sound(verdict, v.hex, files);
    RetryCommitsSameSet(verdict, clear, stopped, files, v);
  }

  // ---------------------------------------------------------------- the verifier is reliable

  /** What a site is set up to accept; `floor` and `used` of the template are replaced. */
  datatype Config = Config(platform: Platform, accepts: Expectation)

  function Now(c: Config, st: ImportState): Expectation {
    c.accepts.(floor := st.floor, used := st.used)
  }

  ghost function VerifiedIn(c: Config, files: Files, st: ImportState): Option<Verified> {
    if exists v :: Acceptable(c.platform, files, v, Now(c, st))
    then var v :| Acceptable(c.platform, files, v, Now(c, st)); Some(v)
    else None
  }

  ghost function VerdictOf(c: Config): Verdict {
    (files, st) => VerifiedIn(c, files, st)
  }

  ghost function ClearOf(c: Config): (Files, Files) -> bool {
    (f, g) => CollisionFreeSets(c.platform, f, g)
  }

  lemma VerdictIs(c: Config, files: Files, st: ImportState, v: Verified)
    requires Acceptable(c.platform, files, v, Now(c, st))
    ensures VerdictOf(c)(files, st) == Some(v)
  {
    IndexedUnique(c.platform, files, v, VerifiedIn(c, files, st).value);
  }

  /** Acceptance under another import state differs only in whether the set advances it. */
  lemma AcceptedLater(c: Config, files: Files, v: Verified, earlier: ImportState, st: ImportState)
    requires Acceptable(c.platform, files, v, Now(c, earlier)) && Advances(st, v)
    ensures Acceptable(c.platform, files, v, Now(c, st))
  {
  }

  lemma CopyAccepted(c: Config, f: Files, g: Files, v: Verified, w: Verified, st: ImportState, earlier: ImportState)
    requires Acceptable(c.platform, f, v, Now(c, st)) && Acceptable(c.platform, g, w, Now(c, earlier))
    requires v.hex == w.hex && CollisionFreeSets(c.platform, f, g)
    ensures Acceptable(c.platform, g, v, Now(c, st))
  {
    DigestFixesSet(c.platform, f, g, v, w, Now(c, st), Now(c, earlier), 0);
    AcceptedLater(c, g, v, earlier, st);
  }

  /** The verification of transfer sets is what the protocol relies on. */
  lemma VerifierIsReliable(c: Config)
    ensures Reliable(VerdictOf(c), ClearOf(c))
  {
    var verdict, clear := VerdictOf(c), ClearOf(c);
    forall f, st | verdict(f, st).Some? ensures Advances(st, verdict(f, st).value) {
      AcceptedAdvances(c, f, st);
    }
    forall f, g, st, earlier | SameSet(verdict(f, st), verdict(g, earlier)) && clear(f, g)
      ensures verdict(g, st) == verdict(f, st)
    {
      CopyAccepted(c, f, g, verdict(f, st).value, verdict(g, earlier).value, st, earlier);
      VerdictIs(c, g, st, verdict(f, st).value);
    }
  }

  lemma AcceptedAdvances(c: Config, files: Files, st: ImportState)
    requires VerifiedIn(c, files, st).Some?
    ensures Advances(st, VerifiedIn(c, files, st).value)
  {
  }

  // ---------------------------------------------------------------- the importer

  class Inbox {
    const config: Config
    var state: Option<ImportState>
    var transfers: map<string, Files>

    function Durable(): Site
      reads this
    {
      Site(state, transfers, Idle)
    }

    constructor (config: Config)
      ensures this.config == config && Durable() == EMPTY_SITE
    {
      this.config := config;
      state, transfers := None, map[];
    }

    method Judge(files: Files, st: ImportState) returns (verified: Option<Verified>)
      ensures verified == VerdictOf(config)(files, st)
    {
      verified := VerifyTransferSet(config.platform, files, Now(config, st));
      if verified.Some? {
        VerdictIs(config, files, st, verified.value);
      }
    }

    /** `writes` is how many of the two durable writes take effect before the importer stops. */
    method ImportTransferSet(files: Files, writes: nat) returns (target: Option<string>)
      modifies this
      ensures var checked := Check(VerdictOf(config), old(Durable()), files);
              var placed := Place(VerdictOf(config), checked);
              && Durable() == (if writes == 0 then old(Durable())
                               else if writes == 1 then placed.(progress := Idle)
                               else Commit(placed).(progress := Idle))
              && target == if writes >= 2 && placed.progress.Placed? then Some(placed.progress.verified.hex) else None
    {
      var read := if state.Some? then state.value else ImportState(0, []);
      var verified := Judge(files, read);
      if verified.None? || writes == 0 {
        return None;
      }
      var hex := verified.value.hex;
      if hex in transfers {
        var stored := Judge(transfers[hex], read);
        if stored.None? || stored.value.hex != hex {
          return None;
        }
      } else {
        transfers := transfers[hex := files];
      }
      if writes == 1 {
        return None;
      }
      var identity := verified.value.manifest.identity;
      state := Some(ImportState(identity.sequence, read.used + [identity.mediaId]));
      return Some(hex);
    }
  }

}
