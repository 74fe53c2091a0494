/** The pairwise conflict scan over canonical documents and the review states it leaves. */
module Review {
  import opened Prelude
  import opened Safety
  import opened Sorting
  import opened Validity

  datatype Reference = Reference(id: string, revision: int, digest: string)

  datatype ConflictState = NoConflict | ResolvedConflict | Contested

  datatype Approval = Draft | InReview | Approved | Rejected

  /** What the scan found about one fact: the other document, and whether nobody won. */
  datatype Note = Note(contested: bool, fact: string, other: string)

  datatype Explanation = Declared(text: string) | Found(notes: set<(string, string)>)

  datatype Document = Document(
    key: Reference, eventId: string, reviews: seq<string>, geographies: set<string>, languages: set<string>, audiences: set<string>,
    validity: Window, authorityRank: int, supersedes: set<Reference>, safety: SafetyClass,
    facts: seq<(string, string)>, state: ConflictState, explanation: Explanation, approval: Approval)

  datatype Policy = Policy(allowAuthority: bool, minimumGap: int, minimumApprovals: int, requiredRoles: seq<string>)

  /** What the schema and the validator demand of a document. */
  predicate DocumentOk(d: Document) {
    WindowOk(d.validity) && (d.approval == Approved ==> d.state != Contested)
  }

  // ---------------------------------------------------------------- reviews of critical documents

  /** `sound`: the record passes its own contract. */
  datatype Attestation = Attestation(
    id: string, sound: bool, ofDocument: bool, subjectId: string, subjectDigest: string, approves: bool,
    approvalsRequired: int, role: string, identity: string, group: string)

  function FindTo(ats: seq<Attestation>, id: string, n: nat): (r: Option<Attestation>)
    requires n <= |ats|
    ensures r.Some? ==> r.value in ats && r.value.id == id
    ensures r.None? ==> forall i :: 0 <= i < n ==> ats[i].id != id
  {
    if n == 0 then None else if ats[n - 1].id == id then Some(ats[n - 1]) else FindTo(ats, id, n - 1)
  }

  function Find(ats: seq<Attestation>, id: string): Option<Attestation> {
    FindTo(ats, id, |ats|)
  }

  predicate About(a: Attestation, d: Document) {
    a.ofDocument && a.subjectId == d.key.id && a.subjectDigest == d.key.digest
  }

  function ApprovalNamed(d: Document, ats: seq<Attestation>): string -> seq<Attestation> {
    id =>
      match Find(ats, id)
      case Some(a) => if About(a, d) && a.approves then [a] else []
      case None => []
  }

  /** The approvals a document names, in order. */
  function Approvals(d: Document, ats: seq<Attestation>): seq<Attestation> {
    FlatMap(d.reviews, ApprovalNamed(d, ats))
  }

  /** Enough approvals, which cover the required roles and are of distinct roles, people and groups. */
  ghost predicate ApprovalsOk(approvals: seq<Attestation>, p: Policy) {
    && |approvals| >= p.minimumApprovals
    && (forall a :: a in approvals ==> |approvals| >= a.approvalsRequired)
    && (forall role :: role in p.requiredRoles ==> exists a :: a in approvals && a.role == role)
    && DistinctBy(approvals, (a: Attestation) => a.role)
    && DistinctBy(approvals, (a: Attestation) => a.identity)
    && DistinctBy(approvals, (a: Attestation) => a.group)
  }

  /** Every review the document names exists and is of it, and its approvals are enough and independent. */
  ghost predicate SeparatelyReviewed(d: Document, ats: seq<Attestation>, p: Policy) {
    && (forall id :: id in d.reviews ==> ReviewNamed(d, ats, id))
    && ApprovalsOk(Approvals(d, ats), p)
  }

  /** `_validate_critical_reviews` */
  ghost predicate CriticalReviewsOk(ds: seq<Document>, ats: seq<Attestation>, p: Policy) {
    && (forall a :: a in ats ==> a.sound) && DistinctBy(ats, (a: Attestation) => a.id)
    && Distinct(p.requiredRoles)
    && forall d :: d in ds && d.safety == Critical ==> SeparatelyReviewed(d, ats, p)
  }

  method CheckReviews(d: Document, ats: seq<Attestation>, p: Policy) returns (ok: bool)
    ensures ok <==> SeparatelyReviewed(d, ats, p)
  {
    var approvals := CollectApprovals(d, ats);
    if approvals.None? {
      return false;
    }
    ok := CheckApprovals(approvals.value, p);
  }

  predicate ReviewNamed(d: Document, ats: seq<Attestation>, id: string) {
    Find(ats, id).Some? && About(Find(ats, id).value, d)
  }

  method FindApproval(d: Document, ats: seq<Attestation>, id: string) returns (result: Option<seq<Attestation>>)
    ensures result.Some? <==> ReviewNamed(d, ats, id)
    ensures result.Some? ==> result.value == ApprovalNamed(d, ats)(id)
  {
    var found := Find(ats, id);
    if found.None? || !About(found.value, d) {
      return None;
    }
    return Some(if found.value.approves then [found.value] else []);
  }

  /** `None` when a review the document names does not exist or is of something else. */
  method CollectApprovals(d: Document, ats: seq<Attestation>) returns (result: Option<seq<Attestation>>)
    ensures result.Some? <==> forall id :: id in d.reviews ==> ReviewNamed(d, ats, id)
    ensures result.Some? ==> result.value == Approvals(d, ats)
  {
    var approvals: seq<Attestation> := [];
    for i := 0 to |d.reviews|
      invariant forall k :: 0 <= k < i ==> ReviewNamed(d, ats, d.reviews[k])
      invariant approvals == FlatMapTo(d.reviews, ApprovalNamed(d, ats), i)
    {
      var found := FindApproval(d, ats, d.reviews[i]);
      if found.None? {
        assert d.reviews[i] in d.reviews;
        return None;
      }
      approvals := approvals + found.value;
    }
    return Some(approvals);
  }

  method CheckApprovals(approvals: seq<Attestation>, p: Policy) returns (ok: bool)
    ensures ok <==> ApprovalsOk(approvals, p)
  {
    var roles := CheckDistinct(approvals, (a: Attestation) => a.role);
    var identities := CheckDistinct(approvals, (a: Attestation) => a.identity);
    var groups := CheckDistinct(approvals, (a: Attestation) => a.group);
    return |approvals| >= p.minimumApprovals && roles && identities && groups
        && (forall a :: a in approvals ==> |approvals| >= a.approvalsRequired)
        && forall role :: role in p.requiredRoles ==> exists a :: a in approvals && a.role == role;
  }

  method ValidateCriticalReviews(ds: seq<Document>, ats: seq<Attestation>, p: Policy) returns (ok: bool)
    ensures ok <==> CriticalReviewsOk(ds, ats, p)
  {
    var ids := CheckDistinct(ats, (a: Attestation) => a.id);
    var roles := CheckDistinct(p.requiredRoles, (r: string) => r);
    if !ids || !roles || exists a :: a in ats && !a.sound {
      return false;
    }
    for i := 0 to |ds|
      invariant forall k :: 0 <= k < i && ds[k].safety == Critical ==> SeparatelyReviewed(ds[k], ats, p)
    {
      if ds[i].safety == Critical {
        var reviewed := CheckReviews(ds[i], ats, p);
        if !reviewed {
          assert ds[i] in ds;
          return false;
        }
      }
    }
    return true;
  }

  /** Two required roles mean two different people in two different groups, both of whom approved exactly
      this document. */
  lemma RolesAreIndependent(d: Document, ats: seq<Attestation>, p: Policy, first: string, second: string)
    returns (a: Attestation, b: Attestation)
    requires SeparatelyReviewed(d, ats, p) && first != second
    requires first in p.requiredRoles && second in p.requiredRoles
    ensures a in ats && b in ats && a.role == first && b.role == second && a.approves && b.approves
    ensures About(a, d) && About(b, d) && a.identity != b.identity && a.group != b.group
  {
    var approvals := Approvals(d, ats);
    a :| a in approvals && a.role == first;
    b :| b in approvals && b.role == second;
    ApprovalIsNamed(d, ats, a);
    ApprovalIsNamed(d, ats, b);
    if a.identity == b.identity {
      SameKeySameElement(approvals, (x: Attestation) => x.identity, a, b);
    }
    if a.group == b.group {
      SameKeySameElement(approvals, (x: Attestation) => x.group, a, b);
    }
  }

  lemma ApprovalIsNamed(d: Document, ats: seq<Attestation>, a: Attestation)
    requires a in Approvals(d, ats)
    ensures a in ats && About(a, d) && a.approves
  {
    FlatMapMembers(d.reviews, ApprovalNamed(d, ats), a);
  }

  // ---------------------------------------------------------------- pairs of documents

  predicate WindowsOverlap(a: Window, b: Window) {
    (b.until.None? || a.from < b.until.value) && (a.until.None? || b.from < a.until.value)
  }

  predicate ScopesOverlap(l: Document, r: Document) {
    && l.eventId == r.eventId
    && l.geographies * r.geographies != {} && l.languages * r.languages != {} && l.audiences * r.audiences != {}
    && WindowsOverlap(l.validity, r.validity)
  }

  /** The values a document asserts for a fact. */
  function Values(d: Document, fact: string): set<string> {
    set f | f in d.facts && f.0 == fact :: f.1
  }

  function FactIds(d: Document): set<string> {
    set f | f in d.facts :: f.0
  }

  /** The facts on which two documents contradict each other. */
  function Clash(l: Document, r: Document): set<string> {
    if ScopesOverlap(l, r) then set fact | fact in FactIds(l) && fact in FactIds(r) && Values(l, fact) != Values(r, fact)
    else {}
  }

  /** `_authority_winner` */
  function Winner(l: Document, r: Document, p: Policy): Option<Reference> {
    var difference := l.authorityRank - r.authorityRank;
    if !p.allowAuthority || Abs(difference) < p.minimumGap || difference == 0 then None
    else
      var (winner, loser) := if difference > 0 then (l, r) else (r, l);
      if loser.key in winner.supersedes then Some(winner.key) else None
  }

  datatype FactConflict = FactConflict(fact: string, documents: (string, string), contested: bool, winner: Option<string>)

  function SortedPair(a: string, b: string): (string, string) {
    if StringLe(a, b) then (a, b) else (b, a)
  }

  function PairConflicts(l: Document, r: Document, p: Policy): set<FactConflict> {
    var winner := if Winner(l, r, p).Some? then Some(Winner(l, r, p).value.id) else None;
    set fact | fact in Clash(l, r) :: FactConflict(fact, SortedPair(l.key.id, r.key.id), winner.None?, winner)
  }

  /** What the scan of one pair notes on the document whose partner is `other`. */
  function PairNotes(clash: set<string>, contested: bool, other: string): set<Note> {
    set fact | fact in clash :: Note(contested, fact, other)
  }

  // ---------------------------------------------------------------- the scan

  /** `combinations(range(n), 2)` */
  function PairsFrom(n: nat, i: nat): seq<(nat, nat)>
    requires i <= n
    decreases n - i
  {
    if i == n then [] else seq(n - i - 1, k requires 0 <= k < n - i - 1 => (i, i + 1 + k)) + PairsFrom(n, i + 1)
  }

  lemma {:induction false} PairsAre(n: nat, i: nat)
    requires i <= n
    ensures forall q :: q in PairsFrom(n, i) <==> i <= q.0 < q.1 < n
    decreases n - i
  {
    if i < n {
      PairsAre(n, i + 1);
      var row := seq(n - i - 1, k requires 0 <= k < n - i - 1 => (i, i + 1 + k));
      forall q: (nat, nat) ensures q in row <==> q.0 == i && i < q.1 < n {
        if q.0 == i && i < q.1 < n {
          assert row[q.1 - i - 1] == q;
        }
      }
    }
  }

  predicate InRange(pairs: seq<(nat, nat)>, n: nat) {
    forall m :: 0 <= m < |pairs| ==> pairs[m].0 < pairs[m].1 < n
  }

  type Notes = map<Reference, set<Note>>

  function NotesOn(notes: Notes, key: Reference): set<Note> {
    if key in notes then notes[key] else {}
  }

  /** What is noted under a key: every clash of a document that has it, and whether nobody wins it. */
  function NotesFor(ds: seq<Document>, key: Reference, p: Policy): set<Note> {
    set d, e, fact | d in ds && e in ds && d.key == key && fact in Clash(d, e) ::
      Note(Winner(d, e, p).None?, fact, e.key.id)
  }

  function NotesOf(ds: seq<Document>, k: nat, p: Policy): set<Note>
    requires k < |ds|
  {
    NotesFor(ds, ds[k].key, p)
  }

  function Explained(notes: set<Note>): Explanation {
    Found(set n | n in notes :: (n.fact, n.other))
  }

  predicate AnyContested(notes: set<Note>) {
    exists n :: n in notes && n.contested
  }

  /** The document as the scan leaves it. */
  function Marked(d: Document, notes: set<Note>): Document {
    if notes == {} then d
    else if AnyContested(notes) then d.(state := Contested, explanation := Explained(notes), approval := InReview)
    else d.(state := ResolvedConflict, explanation := Explained(notes))
  }

  predicate ByKey(a: Document, b: Document) {
    || StringLt(a.key.id, b.key.id)
    || (a.key.id == b.key.id && a.key.revision < b.key.revision)
    || (a.key.id == b.key.id && a.key.revision == b.key.revision && StringLe(a.key.digest, b.key.digest))
  }

  /** What a pair notes under a key, about its first document and about its second. */
  function NotesOfPair(l: Document, r: Document, key: Reference, p: Policy): set<Note> {
    var clash, contested := Clash(l, r), Winner(l, r, p).None?;
    (if key == l.key then PairNotes(clash, contested, r.key.id) else {})
    + if key == r.key then PairNotes(clash, contested, l.key.id) else {}
  }

  /** What the first `n` pairs note under a key. */
  function NotesTo(ds: seq<Document>, pairs: seq<(nat, nat)>, n: nat, key: Reference, p: Policy): set<Note>
    requires n <= |pairs| && InRange(pairs, |ds|)
  {
    if n == 0 then {}
    else NotesTo(ds, pairs, n - 1, key, p) + NotesOfPair(ds[pairs[n - 1].0], ds[pairs[n - 1].1], key, p)
  }

  /** The conflicts of each pair, in the order of the pairs. */
  function ConflictSets(ds: seq<Document>, pairs: seq<(nat, nat)>, p: Policy): (r: seq<set<FactConflict>>)
    requires InRange(pairs, |ds|)
    ensures |r| == |pairs|
  {
    seq(|pairs|, m requires 0 <= m < |pairs| => PairConflicts(ds[pairs[m].0], ds[pairs[m].1], p))
  }

  function SumTo<T>(sets: seq<set<T>>, n: nat): multiset<T>
    requires n <= |sets|
  {
    if n == 0 then multiset{} else SumTo(sets, n - 1) + multiset(sets[n - 1])
  }

  /** Everything the scan of all pairs reports. */
  function ConflictsOf(ds: seq<Document>, p: Policy): multiset<FactConflict>
    requires PairsOk(ds)
  {
    SumTo(ConflictSets(ds, PairsFrom(|ds|, 0), p), |PairsFrom(|ds|, 0)|)
  }

  predicate PairsOk(ds: seq<Document>) {
    InRange(PairsFrom(|ds|, 0), |ds|)
  }

  method NotePair(notes: Notes, l: Document, r: Document, p: Policy) returns (after: Notes)
    ensures forall key :: NotesOn(after, key) == NotesOn(notes, key) + NotesOfPair(l, r, key, p)
  {
    var clash, contested := Clash(l, r), Winner(l, r, p).None?;
    after := notes[l.key := NotesOn(notes, l.key) + PairNotes(clash, contested, r.key.id)];
    after := after[r.key := NotesOn(after, r.key) + PairNotes(clash, contested, l.key.id)];
  }

  /** Every key has the notes of the first `n` pairs. */
  ghost predicate Noted(ds: seq<Document>, pairs: seq<(nat, nat)>, n: nat, p: Policy, notes: Notes)
    requires n <= |pairs| && InRange(pairs, |ds|)
  {
    forall key :: NotesOn(notes, key) == NotesTo(ds, pairs, n, key, p)
  }

  lemma NotedStep(ds: seq<Document>, pairs: seq<(nat, nat)>, n: nat, p: Policy, before: Notes, after: Notes)
    requires n < |pairs| && InRange(pairs, |ds|) && Noted(ds, pairs, n, p, before)
    requires forall key :: NotesOn(after, key) == NotesOn(before, key) + NotesOfPair(ds[pairs[n].0], ds[pairs[n].1], key, p)
    ensures Noted(ds, pairs, n + 1, p, after)
  {
    forall key ensures NotesOn(after, key) == NotesTo(ds, pairs, n + 1, key, p) {
      assert NotesOn(before, key) == NotesTo(ds, pairs, n, key, p);
    }
  }

  method ScanPairs(ds: seq<Document>, p: Policy) returns (notes: Notes, conflicts: multiset<FactConflict>)
    ensures PairsOk(ds)
    ensures Noted(ds, PairsFrom(|ds|, 0), |PairsFrom(|ds|, 0)|, p, notes)
    ensures conflicts == ConflictsOf(ds, p)
  {
    PairsInRange(ds);
    var pairs := PairsFrom(|ds|, 0);
    notes, conflicts := map[], multiset{};
    for n := 0 to |pairs|
      invariant Noted(ds, pairs, n, p, notes)
      invariant conflicts == SumTo(ConflictSets(ds, pairs, p), n)
    {
      var l, r := ds[pairs[n].0], ds[pairs[n].1];
      conflicts := conflicts + multiset(PairConflicts(l, r, p));
      ghost var before := notes;
      notes := NotePair(notes, l, r, p);
      NotedStep(ds, pairs, n, p, before, notes);
    }
  }

  lemma PairsInRange(ds: seq<Document>)
    ensures PairsOk(ds)
  {
    PairsAre(|ds|, 0);
    forall m | 0 <= m < |PairsFrom(|ds|, 0)| ensures PairsFrom(|ds|, 0)[m].0 < PairsFrom(|ds|, 0)[m].1 < |ds| {
      assert PairsFrom(|ds|, 0)[m] in PairsFrom(|ds|, 0);
    }
  }

  // ---------------------------------------------------------------- the pairwise scan finds everything

  /** The overlap test means that the two windows have an instant in common. */
  lemma OverlapIsCommonInstant(a: Window, b: Window)
    requires WindowOk(a) && WindowOk(b)
    ensures WindowsOverlap(a, b) <==> exists t :: ActiveAt(a, t) && ActiveAt(b, t)
  {
    if WindowsOverlap(a, b) {
      assert ActiveAt(a, Max(a.from, b.from)) && ActiveAt(b, Max(a.from, b.from));
    }
  }

  /** Neither the clash nor its winner depends on which document comes first. */
  lemma PairIsSymmetric(l: Document, r: Document, p: Policy)
    ensures Clash(l, r) == Clash(r, l) && Winner(l, r, p) == Winner(r, l, p)
  {
  }

  /** The note is about a clash of the first document with the second. */
  predicate NoteAbout(d: Document, e: Document, p: Policy, note: Note) {
    note.fact in Clash(d, e) && note == Note(Winner(d, e, p).None?, note.fact, e.key.id)
  }

  /** The pair holds a document with the key, and the note is about its clash with the other one. */
  predicate NotedBy(l: Document, r: Document, key: Reference, p: Policy, note: Note) {
    (l.key == key && NoteAbout(l, r, p, note)) || (r.key == key && NoteAbout(r, l, p, note))
  }

  lemma PairNotesAre(l: Document, r: Document, key: Reference, p: Policy, note: Note)
    ensures note in NotesOfPair(l, r, key, p) <==> NotedBy(l, r, key, p, note)
  {
    PairIsSymmetric(l, r, p);
  }

  predicate NotedAt(ds: seq<Document>, q: (nat, nat), key: Reference, p: Policy, note: Note) {
    q.0 < |ds| && q.1 < |ds| && NotedBy(ds[q.0], ds[q.1], key, p, note)
  }

  /** `has` grows by `hit` at step m. */
  ghost predicate Grows(has: nat -> bool, hit: nat -> bool, m: nat) {
    has(m + 1) <==> has(m) || hit(m)
  }

  lemma {:induction false} GrownIff(has: nat -> bool, hit: nat -> bool, n: nat)
    requires !has(0) && forall m :: 0 <= m < n ==> Grows(has, hit, m)
    ensures has(n) <==> exists m :: 0 <= m < n && hit(m)
  {
    if n > 0 {
      GrownIff(has, hit, n - 1);
      assert Grows(has, hit, n - 1);
    }
  }

  lemma NotesToAre(ds: seq<Document>, pairs: seq<(nat, nat)>, n: nat, key: Reference, p: Policy, note: Note)
    requires n <= |pairs| && InRange(pairs, |ds|)
    ensures note in NotesTo(ds, pairs, n, key, p) <==> exists m :: 0 <= m < n && NotedAt(ds, pairs[m], key, p, note)
  {
    var has := (m: nat) => m <= |pairs| && note in NotesTo(ds, pairs, m, key, p);
    var hit := (m: nat) => m < |pairs| && NotedAt(ds, pairs[m], key, p, note);
    forall m | 0 <= m < n ensures Grows(has, hit, m) {
      PairNotesAre(ds[pairs[m].0], ds[pairs[m].1], key, p, note);
    }
    GrownIff(has, hit, n);
    assert forall m :: 0 <= m < n ==> (hit(m) <==> NotedAt(ds, pairs[m], key, p, note));
  }

  /** The pairs visited cover every two documents: the notes left under a key are exactly the clashes of the
      documents that have it. */
  lemma ScanFindsEveryClash(ds: seq<Document>, key: Reference, p: Policy)
    ensures PairsOk(ds)
    ensures NotesTo(ds, PairsFrom(|ds|, 0), |PairsFrom(|ds|, 0)|, key, p) == NotesFor(ds, key, p)
  {
    PairsInRange(ds);
    var pairs := PairsFrom(|ds|, 0);
    forall note ensures note in NotesTo(ds, pairs, |pairs|, key, p) <==> note in NotesFor(ds, key, p) {
      NotesToAre(ds, pairs, |pairs|, key, p, note);
      if m :| 0 <= m < |pairs| && NotedAt(ds, pairs[m], key, p, note) {
        assert ds[pairs[m].0] in ds && ds[pairs[m].1] in ds;
      }
      if note in NotesFor(ds, key, p) {
        var m := NoteHasPair(ds, key, p, note);
      }
    }
  }

  lemma NoteHasPair(ds: seq<Document>, key: Reference, p: Policy, note: Note) returns (m: nat)
    requires note in NotesFor(ds, key, p) && PairsOk(ds)
    ensures m < |PairsFrom(|ds|, 0)|
    ensures NotedAt(ds, PairsFrom(|ds|, 0)[m], key, p, note)
  {
    var d, e :| d in ds && e in ds && d.key == key && NoteAbout(d, e, p, note);
    ClashesDiffer(d, e, p, note);
    var i :| 0 <= i < |ds| && ds[i] == d;
    var j :| 0 <= j < |ds| && ds[j] == e;
    m := PairIndex(|ds|, i, j);
  }

  lemma ClashesDiffer(d: Document, e: Document, p: Policy, note: Note)
    requires NoteAbout(d, e, p, note)
    ensures d != e
  {
  }

  lemma PairIndex(n: nat, i: nat, j: nat) returns (m: nat)
    requires i < n && j < n && i != j
    ensures m < |PairsFrom(n, 0)| && PairsFrom(n, 0)[m] == if i < j then (i, j) else (j, i)
  {
    PairsAre(n, 0);
    var q := if i < j then (i, j) else (j, i);
    assert q in PairsFrom(n, 0);
    m :| 0 <= m < |PairsFrom(n, 0)| && PairsFrom(n, 0)[m] == q;
  }

  // ---------------------------------------------------------------- the outcome

  datatype Outcome = Outcome(documents: seq<Document>, conflicts: multiset<FactConflict>, blocked: set<string>)

  function Ordered(ds: seq<Document>): seq<Document> {
    Sort(ds, ByKey)
  }

  predicate BlockedBy(d: Document, notes: set<Note>) {
    AnyContested(notes) && d.safety == Critical
  }

  /** The documents as the scan leaves them. */
  function MarkedAll(ds: seq<Document>, p: Policy): (r: seq<Document>)
    ensures |r| == |ds| && forall k :: 0 <= k < |r| ==> r[k] == Marked(ds[k], NotesOf(ds, k, p))
  {
    seq(|ds|, k requires 0 <= k < |ds| => Marked(ds[k], NotesOf(ds, k, p)))
  }

  function BlockedIn(ds: seq<Document>, p: Policy): set<string> {
    set k | 0 <= k < |ds| && BlockedBy(ds[k], NotesOf(ds, k, p)) :: ds[k].key.id
  }

  method MarkDocuments(ds: seq<Document>, p: Policy, notes: Notes) returns (marked: seq<Document>, blocked: set<string>)
    requires forall k :: 0 <= k < |ds| ==> NotesOn(notes, ds[k].key) == NotesOf(ds, k, p)
    ensures marked == MarkedAll(ds, p) && blocked == BlockedIn(ds, p)
  {
    marked, blocked := MarkEach(ds, notes);
  }

  method MarkEach(ds: seq<Document>, notes: Notes) returns (marked: seq<Document>, blocked: set<string>)
    ensures |marked| == |ds| && forall i :: 0 <= i < |ds| ==> marked[i] == Marked(ds[i], NotesOn(notes, ds[i].key))
    ensures blocked == set i | 0 <= i < |ds| && BlockedBy(ds[i], NotesOn(notes, ds[i].key)) :: ds[i].key.id
  {
    marked, blocked := [], {};
    for k := 0 to |ds|
      invariant |marked| == k && forall i :: 0 <= i < k ==> marked[i] == Marked(ds[i], NotesOn(notes, ds[i].key))
      invariant blocked == set i | 0 <= i < k && BlockedBy(ds[i], NotesOn(notes, ds[i].key)) :: ds[i].key.id
    {
      var found := NotesOn(notes, ds[k].key);
      marked := marked + [Marked(ds[k], found)];
      if BlockedBy(ds[k], found) {
        blocked := blocked + {ds[k].key.id};
      }
    }
  }

  /** The scan is refused for a policy with a minimum below one, an invalid document, or a critical document
      without separate reviews. */
  ghost predicate Reviewable(documents: seq<Document>, ats: seq<Attestation>, p: Policy) {
    && p.minimumGap >= 1 && p.minimumApprovals >= 1
    && (forall d :: d in documents ==> DocumentOk(d))
    && CriticalReviewsOk(documents, ats, p)
  }

  method EvaluateReviewPolicy(documents: seq<Document>, ats: seq<Attestation>, p: Policy) returns (outcome: Option<Outcome>)
    ensures PairsOk(Ordered(documents))
    ensures outcome.Some? <==> Reviewable(documents, ats, p)
    ensures outcome.Some? ==>
              outcome.value == Outcome(MarkedAll(Ordered(documents), p), ConflictsOf(Ordered(documents), p),
                                       BlockedIn(Ordered(documents), p))
  {
    var ds := Ordered(documents);
    PairsInRange(ds);
    if p.minimumGap < 1 || p.minimumApprovals < 1 || exists d :: d in documents && !DocumentOk(d) {
      return None;
    }
    var reviewed := ValidateCriticalReviews(documents, ats, p);
    if !reviewed {
      return None;
    }
    var notes, conflicts := ScanPairs(ds, p);
    forall k | 0 <= k < |ds| ensures NotesOn(notes, ds[k].key) == NotesOf(ds, k, p) {
      ScanFindsEveryClash(ds, ds[k].key, p);
    }
    var marked, blocked := MarkDocuments(ds, p, notes);
    return Some(Outcome(marked, conflicts, blocked));
  }

  lemma ByKeyIsPreorder()
    ensures Preorder(ByKey)
  {
    forall x, y ensures ByKey(x, y) || ByKey(y, x) {
      StringLeTotal(x.key.id, y.key.id);
      StringLeTotal(x.key.digest, y.key.digest);
    }
    forall x, y, z | ByKey(x, y) && ByKey(y, z) ensures ByKey(x, z) {
      ByKeyTransitive(x, y, z);
    }
  }

  lemma ByKeyTransitive(x: Document, y: Document, z: Document)
    requires ByKey(x, y) && ByKey(y, z)
    ensures ByKey(x, z)
  {
    StringLeTotal(x.key.id, y.key.id);
    StringLeTotal(y.key.id, z.key.id);
    StringLeTransitive(x.key.id, y.key.id, z.key.id);
    if x.key.id == z.key.id && x.key.revision == z.key.revision {
      StringLeTransitive(x.key.digest, y.key.digest, z.key.digest);
    }
  }

  /** `d` has the key of document `k`: itself, or one that repeats it. */
  predicate SameKey(ds: seq<Document>, k: nat, d: Document)
    requires k < |ds|
  {
    d in ds && d.key == ds[k].key
  }

  /** A document with this key is contradicted, and nobody wins. */
  ghost predicate LeftContested(ds: seq<Document>, k: nat, p: Policy)
    requires k < |ds|
  {
    exists d, e :: SameKey(ds, k, d) && e in ds && Clash(d, e) != {} && Winner(d, e, p).None?
  }

  ghost predicate Contradicted(ds: seq<Document>, k: nat)
    requires k < |ds|
  {
    exists d, e :: SameKey(ds, k, d) && e in ds && Clash(d, e) != {}
  }

  lemma ClashIsNoted(ds: seq<Document>, k: nat, p: Policy, d: Document, e: Document) returns (note: Note)
    requires k < |ds| && SameKey(ds, k, d) && e in ds && Clash(d, e) != {}
    ensures note in NotesOf(ds, k, p) && note.contested == Winner(d, e, p).None?
  {
    var fact :| fact in Clash(d, e);
    note := Note(Winner(d, e, p).None?, fact, e.key.id);
  }

  lemma NotesMean(ds: seq<Document>, k: nat, p: Policy)
    requires k < |ds|
    ensures NotesOf(ds, k, p) != {} <==> Contradicted(ds, k)
    ensures AnyContested(NotesOf(ds, k, p)) <==> LeftContested(ds, k, p)
  {
    if d, e :| SameKey(ds, k, d) && e in ds && Clash(d, e) != {} {
      var note := ClashIsNoted(ds, k, p, d, e);
    }
    if d, e :| SameKey(ds, k, d) && e in ds && Clash(d, e) != {} && Winner(d, e, p).None? {
      var note := ClashIsNoted(ds, k, p, d, e);
    }
    if note :| note in NotesOf(ds, k, p) {
      NoteIsClash(ds, k, p, note);
    }
    if note :| note in NotesOf(ds, k, p) && note.contested {
      NoteIsClash(ds, k, p, note);
    }
  }

  lemma NoteIsClash(ds: seq<Document>, k: nat, p: Policy, note: Note)
    requires k < |ds| && note in NotesOf(ds, k, p)
    ensures Contradicted(ds, k) && (note.contested ==> LeftContested(ds, k, p))
  {
    var d, e :| d in ds && e in ds && d.key == ds[k].key && NoteAbout(d, e, p, note);
    assert SameKey(ds, k, d);
  }

  /** A contradicted document ends contested, with its approval withdrawn, exactly when one of its clashes
      has no authority winner, and resolved otherwise; any other document stays as it is. Facts, keys and
      everything else never change, and no approved document is left contested. */
  lemma MarkedMeans(ds: seq<Document>, k: nat, p: Policy)
    requires k < |ds|
    ensures var d, m := ds[k], Marked(ds[k], NotesOf(ds, k, p));
            && (Contradicted(ds, k) && LeftContested(ds, k, p) ==> m.state == Contested && m.approval == InReview)
            && (Contradicted(ds, k) && !LeftContested(ds, k, p) ==> m.state == ResolvedConflict && m.approval == d.approval)
            && (!Contradicted(ds, k) ==> m == d)
            && m == d.(state := m.state, explanation := m.explanation, approval := m.approval)
            && (DocumentOk(d) ==> DocumentOk(m))
  {
    NotesMean(ds, k, p);
  }

  /** Blocked are exactly the critical documents that this scan leaves contested. */
  lemma BlockedMeans(ds: seq<Document>, k: nat, p: Policy)
    requires k < |ds|
    ensures BlockedBy(ds[k], NotesOf(ds, k, p)) <==> ds[k].safety == Critical && LeftContested(ds, k, p)
  {
    NotesMean(ds, k, p);
  }

  lemma OrderedKeepsDocuments(documents: seq<Document>)
    ensures Permutation(Ordered(documents), documents)
  {
    ByKeyIsPreorder();
    SortSorts(documents, ByKey);
  }

  /** The verdict on a document does not depend on the order in which the documents arrive. */
  lemma VerdictForgetsOrder(a: seq<Document>, b: seq<Document>, i: nat, j: nat, p: Policy)
    requires Permutation(a, b) && i < |Ordered(a)| && j < |Ordered(b)| && Ordered(a)[i] == Ordered(b)[j]
    ensures MarkedAll(Ordered(a), p)[i] == MarkedAll(Ordered(b), p)[j]
  {
    OrderedKeepsDocuments(a);
    OrderedKeepsDocuments(b);
    forall d ensures d in Ordered(a) <==> d in Ordered(b) {
      PermutationMembers(Ordered(a), Ordered(b), d);
    }
    assert NotesOf(Ordered(a), i, p) == NotesOf(Ordered(b), j, p);
  }

  lemma {:induction false} SumHolds<T>(sets: seq<set<T>>, n: nat, x: T)
    requires n <= |sets|
    ensures x in SumTo(sets, n) <==> exists m :: 0 <= m < n && x in sets[m]
  {
    if n > 0 {
      SumHolds(sets, n - 1, x);
      assert x in multiset(sets[n - 1]) <==> x in sets[n - 1];
    }
  }

  predicate ConflictOf(ds: seq<Document>, q: (nat, nat), p: Policy, c: FactConflict) {
    q.0 < |ds| && q.1 < |ds| && c in PairConflicts(ds[q.0], ds[q.1], p)
  }

  lemma ConflictHasPair(ds: seq<Document>, p: Policy, c: FactConflict, q: (nat, nat))
    requires PairsOk(ds) && q.0 < q.1 < |ds| && ConflictOf(ds, q, p, c)
    ensures exists m :: 0 <= m < |PairsFrom(|ds|, 0)| && c in ConflictSets(ds, PairsFrom(|ds|, 0), p)[m]
  {
    var m := PairIndex(|ds|, q.0, q.1);
    assert c in ConflictSets(ds, PairsFrom(|ds|, 0), p)[m];
  }

  /** The reported conflicts are exactly the clashes of any two of the documents. */
  lemma ConflictsAreClashes(ds: seq<Document>, p: Policy, c: FactConflict)
    ensures PairsOk(ds)
    ensures c in ConflictsOf(ds, p) <==> exists q: (nat, nat) :: q.0 < q.1 < |ds| && ConflictOf(ds, q, p, c)
  {
    PairsInRange(ds);
    var pairs := PairsFrom(|ds|, 0);
    var sets := ConflictSets(ds, pairs, p);
    SumHolds(sets, |pairs|, c);
    if m :| 0 <= m < |pairs| && c in sets[m] {
      assert ConflictOf(ds, pairs[m], p, c);
    }
    if q: (nat, nat) :| q.0 < q.1 < |ds| && ConflictOf(ds, q, p, c) {
      ConflictHasPair(ds, p, c, q);
    }
  }
}
