/**
 Externally witnessed checkpoints of the audit ledger: preparing them, and verifying a chain of
 receipts offline against a ledger.

 Times are integers. The prefix digest is the digest of the ledger's first lines.
 */
module AuditAnchor {
  import opened Prelude
  import opened Identifiers
  import opened Crypto
  import opened Audit

  datatype PreviousAnchor = PreviousAnchor(receiptId: Option<Digest<ReceiptBody>>, receiptDigest: Option<Digest<Receipt>>)

  datatype CheckpointBody = CheckpointBody(
    checkpointSequence: int, ledgerId: string, entrySequence: int, entryDigest: Digest<Body>, byteSize: int,
    prefixDigest: Digest<seq<Line>>, previousAnchor: PreviousAnchor, requester: string, createdAt: int)

  datatype Checkpoint = Checkpoint(checkpointId: Digest<CheckpointBody>, body: CheckpointBody)

  datatype Revocation = Revocation(generation: int, checkedAt: int, revokedAt: Option<int>, reason: Option<string>)

  datatype ReceiptBody = ReceiptBody(
    checkpoint: Checkpoint, witnessId: string, organization: string, signedAt: int,
    keyId: KeyId, keyFrom: int, keyTo: int, revocation: Revocation)

  datatype Statement = Statement(receiptId: Digest<ReceiptBody>, body: ReceiptBody)

  datatype Receipt = Receipt(statement: Statement, signature: Signature<Statement>) {
    function Sequence(): int { statement.body.checkpoint.body.checkpointSequence }
    function EntrySequence(): int { statement.body.checkpoint.body.entrySequence }
    function SignedAt(): int { statement.body.signedAt }
    function LedgerId(): string { statement.body.checkpoint.body.ledgerId }
    function Generation(): int { statement.body.revocation.generation }
  }

  const NO_ANCHOR := PreviousAnchor(None, None)

  function AnchorOf(r: Receipt): PreviousAnchor {
    PreviousAnchor(Some(r.statement.receiptId), Some(Sha256(r)))
  }

  predicate Identity(s: string) {
    3 <= |s| <= 256
  }

  // ---------------------------------------------------------------- record contracts

  predicate CheckpointOk(c: Checkpoint) {
    && c.body.checkpointSequence >= 1
    && WellFormedId(c.body.ledgerId)
    && c.body.entrySequence >= 1 && c.body.byteSize >= 1
    && Identity(c.body.requester)
    && (c.body.previousAnchor.receiptId.None? <==> c.body.previousAnchor.receiptDigest.None?)
    && (c.body.checkpointSequence == 1 <==> c.body.previousAnchor.receiptId.None?)
    && c.checkpointId == Sha256(c.body)
  }

  predicate ReceiptOk(r: Receipt) {
    var b := r.statement.body;
    && CheckpointOk(b.checkpoint)
    && Identity(b.witnessId) && 1 <= |b.organization| <= 256
    && b.checkpoint.body.createdAt <= b.signedAt
    && b.keyFrom <= b.signedAt < b.keyTo
    && b.revocation.generation >= 1
    && b.revocation.checkedAt <= b.signedAt
    && b.witnessId != b.checkpoint.body.requester
    && (b.revocation.revokedAt.None? <==> b.revocation.reason.None?)
    && r.statement.receiptId == Sha256(b)
  }

  // ---------------------------------------------------------------- preparing

  /** The checkpoint records the head, the size and the digest of these lines. */
  predicate Records(c: CheckpointBody, prefix: seq<Line>) {
    && prefix != [] && AllCanonical(prefix)
    && c.entryDigest == prefix[|prefix| - 1].entry.digest
    && c.byteSize == ByteSize(prefix)
    && c.prefixDigest == Sha256(prefix)
  }

  /** The ledger verifies and the checkpoint records its prefix of that length. */
  predicate MatchesLedger(c: CheckpointBody, ledger: seq<Line>) {
    && Verified(ledger)
    && 1 <= c.entrySequence <= |ledger|
    && Records(c, ledger[..c.entrySequence])
  }

  /** `verify_receipt` */
  predicate ReceiptVerifies(ledger: seq<Line>, r: Receipt, key: PublicKey, asOf: int, revoked: set<KeyId>) {
    && ReceiptOk(r)
    && r.statement.body.signedAt <= asOf
    && r.statement.body.keyId == PublicKeyId(key)
    && r.statement.body.revocation.revokedAt.None?
    && PublicKeyId(key) !in revoked
    && MatchesLedger(r.statement.body.checkpoint.body, ledger)
    && Verifies(key, r.statement, r.signature)
  }

  function PrepareCheckpoint(
    ledger: seq<Line>, ledgerId: string, requester: string, createdAt: int,
    previous: Option<Receipt>, previousKey: Option<PublicKey>): Option<Checkpoint>
  {
    if !Verified(ledger) || ledger == [] then None
    else if createdAt < HeadTime(ledger).value then None
    else if previous.Some? && (
      previousKey.None?
      || !ReceiptVerifies(ledger, previous.value, previousKey.value, createdAt, {})
      || previous.value.LedgerId() != ledgerId
      || |ledger| <= previous.value.EntrySequence()) then None
    else
      var body := CheckpointBody(
        if previous.None? then 1 else previous.value.Sequence() + 1,
        ledgerId, |ledger|, ledger[|ledger| - 1].entry.digest, ByteSize(ledger), Sha256(ledger),
        if previous.None? then NO_ANCHOR else AnchorOf(previous.value), requester, createdAt);
      var c := Checkpoint(Sha256(body), body);
      if CheckpointOk(c) then Some(c) else None
  }

  function PrepareWitnessStatement(
    c: Checkpoint, witnessId: string, organization: string, signedAt: int, key: PublicKey,
    keyFrom: int, keyTo: int, generation: int, checkedAt: int): Option<Statement>
  {
    if !CheckpointOk(c) || witnessId == c.body.requester || signedAt < c.body.createdAt
       || !(keyFrom <= signedAt < keyTo) || checkedAt > signedAt || generation < 1
    then None
    else
      var body := ReceiptBody(c, witnessId, organization, signedAt, PublicKeyId(key), keyFrom, keyTo,
                              Revocation(generation, checkedAt, None, None));
      Some(Statement(Sha256(body), body))
  }

  function FinalizeReceipt(s: Statement, signature: Signature<Statement>, key: PublicKey): Option<Receipt> {
    if s.body.keyId != PublicKeyId(key) || !Verifies(key, s, signature) then None
    else if ReceiptOk(Receipt(s, signature)) then Some(Receipt(s, signature))
    else None
  }

  // ---------------------------------------------------------------- verifying a chain

  datatype ChainSummary = ChainSummary(
    ledgerId: string, count: nat, lastSequence: int, lastEntrySequence: int,
    lastReceiptId: Digest<ReceiptBody>, lastReceiptDigest: Digest<Receipt>, verifiedAt: int)

  /** `ordered` holds exactly the supplied receipts, numbered 1, 2, 3, … */
  ghost predicate Arranged(receipts: seq<Receipt>, ordered: seq<Receipt>) {
    && multiset(ordered) == multiset(receipts)
    && forall i :: 0 <= i < |ordered| ==> ordered[i].Sequence() == i + 1
  }

  /** The i-th receipt continues the chain and verifies against the ledger. */
  predicate LinkOk(ledger: seq<Line>, ordered: seq<Receipt>, i: nat, trusted: map<KeyId, PublicKey>,
                   asOf: int, revoked: set<KeyId>)
    requires i < |ordered|
  {
    var r := ordered[i];
    && r.LedgerId() == ordered[0].LedgerId()
    && r.EntrySequence() > (if i == 0 then 0 else ordered[i - 1].EntrySequence())
    && r.statement.body.checkpoint.body.previousAnchor == AnchorBefore(ordered, i)
    && (i > 0 ==> ordered[i - 1].SignedAt() <= r.SignedAt())
    && r.Generation() >= (if i == 0 then 0 else ordered[i - 1].Generation())
    && r.statement.body.keyId in trusted
    && ReceiptVerifies(ledger, r, trusted[r.statement.body.keyId], asOf, revoked)
  }

  ghost predicate LinkedChain(ledger: seq<Line>, ordered: seq<Receipt>, trusted: map<KeyId, PublicKey>,
                              asOf: int, revoked: set<KeyId>) {
    && ordered != []
    && forall i :: 0 <= i < |ordered| ==> LinkOk(ledger, ordered, i, trusted, asOf, revoked)
  }

  ghost predicate Accepted(ledger: seq<Line>, receipts: seq<Receipt>, trusted: map<KeyId, PublicKey>,
                           asOf: int, revoked: set<KeyId>) {
    exists ordered :: Arranged(receipts, ordered) && LinkedChain(ledger, ordered, trusted, asOf, revoked)
  }

  function SummaryOfChain(ordered: seq<Receipt>, asOf: int): ChainSummary
    requires ordered != []
  {
    var last := ordered[|ordered| - 1];
    ChainSummary(ordered[0].LedgerId(), |ordered|, last.Sequence(), last.EntrySequence(),
                 last.statement.receiptId, Sha256(last), asOf)
  }

  /** The receipts indexed by checkpoint sequence; no two share one. */
  ghost predicate Indexed(receipts: seq<Receipt>, index: map<int, Receipt>) {
    && (forall r :: r in receipts ==> r.Sequence() in index && index[r.Sequence()] == r)
    && (forall s :: s in index ==> index[s] in receipts && index[s].Sequence() == s)
  }

  method IndexBySequence(receipts: seq<Receipt>) returns (index: Option<map<int, Receipt>>)
    ensures index.Some? ==> Indexed(receipts, index.value) && forall r :: r in receipts ==> ReceiptOk(r)
    ensures index.None? ==>
              (exists r :: r in receipts && !ReceiptOk(r)) || forall o :: !Arranged(receipts, o)
  {
    var bySequence: map<int, Receipt> := map[];
    var ids: set<Digest<ReceiptBody>> := {};
    var i := 0;
    while i < |receipts|
      invariant i <= |receipts|
      invariant Indexed(receipts[..i], bySequence)
      invariant forall r :: r in receipts[..i] ==> ReceiptOk(r)
      invariant forall id :: id in ids ==> exists r :: r in receipts[..i] && r.statement.receiptId == id
    {
      var r := receipts[i];
      if !ReceiptOk(r) {
        return None;
      }
      if r.Sequence() in bySequence {
        ghost var q := bySequence[r.Sequence()];
        ghost var k :| 0 <= k < i && receipts[k] == q;
        SharedSequenceNotArranged(receipts, k, i);
        return None;
      }
      if r.statement.receiptId in ids {
        // cannot happen: the identifier is the digest of a body that carries the sequence
        assert false;
      }
      assert receipts[..i + 1] == receipts[..i] + [r];
      bySequence := bySequence[r.Sequence() := r];
      ids := ids + {r.statement.receiptId};
      i := i + 1;
    }
    assert receipts[..i] == receipts;
    return Some(bySequence);
  }

  /** Sort the receipts by checkpoint sequence, refusing replays, forks and gaps. */
  method Arrange(receipts: seq<Receipt>) returns (ordered: Option<seq<Receipt>>)
    ensures ordered.Some? ==> Arranged(receipts, ordered.value) && forall r :: r in receipts ==> ReceiptOk(r)
    ensures ordered.None? ==>
              (exists r :: r in receipts && !ReceiptOk(r)) || forall o :: !Arranged(receipts, o)
  {
    var index := IndexBySequence(receipts);
    if index.None? {
      return None;
    }
    var bySequence := index.value;
    var out: seq<Receipt> := [];
    while |out| < |receipts|
      invariant |out| <= |receipts|
      invariant forall k :: 0 <= k < |out| ==> out[k] in receipts && out[k].Sequence() == k + 1
    {
      if |out| + 1 !in bySequence {
        MissingSequenceNotArranged(receipts, |out| + 1);
        return None;
      }
      out := out + [bySequence[|out| + 1]];
    }
    DistinctSameLength(receipts, out);
    return Some(out);
  }

  lemma SharedSequenceNotArranged(receipts: seq<Receipt>, k: nat, m: nat)
    requires k < m < |receipts| && receipts[k].Sequence() == receipts[m].Sequence()
    ensures forall o :: !Arranged(receipts, o)
  {
    forall o | Arranged(receipts, o) ensures false {
      var a, b := receipts[k], receipts[m];
      assert multiset(receipts)[a] > 0 && multiset(receipts)[b] > 0;
      assert a in multiset(o) && b in multiset(o);
      var x :| 0 <= x < |o| && o[x] == a;
      var y :| 0 <= y < |o| && o[y] == b;
      assert x == y && a == b;
      TwiceInMultiset(receipts, k, m);
      OnceInArranged(o, x);
    }
  }

  lemma TwiceInMultiset<T>(s: seq<T>, k: nat, m: nat)
    requires k < m < |s| && s[k] == s[m]
    ensures multiset(s)[s[k]] >= 2
  {
    assert s == s[..m] + [s[m]] + s[m + 1..];
    assert s[..m] == s[..k] + [s[k]] + s[k + 1..m];
  }

  lemma {:induction false} OnceInSequence<T>(s: seq<T>, x: nat)
    requires x < |s| && forall i :: 0 <= i < |s| && i != x ==> s[i] != s[x]
    ensures multiset(s)[s[x]] == 1
  {
    assert s == s[..x] + [s[x]] + s[x + 1..];
    assert s[x] !in s[..x] && s[x] !in s[x + 1..];
  }

  lemma OnceInArranged(o: seq<Receipt>, x: nat)
    requires x < |o| && forall i :: 0 <= i < |o| ==> o[i].Sequence() == i + 1
    ensures multiset(o)[o[x]] == 1
  {
    OnceInSequence(o, x);
  }

  lemma ArrangedHoldsEverySequence(receipts: seq<Receipt>, o: seq<Receipt>, s: int)
    requires 1 <= s <= |receipts| && Arranged(receipts, o)
    ensures exists r :: r in receipts && r.Sequence() == s
  {
    assert |o| == |multiset(o)| == |receipts|;
    assert o[s - 1] in multiset(o);
    assert o[s - 1] in receipts && o[s - 1].Sequence() == s;
  }

  lemma MissingSequenceNotArranged(receipts: seq<Receipt>, s: int)
    requires 1 <= s <= |receipts| && forall r :: r in receipts ==> r.Sequence() != s
    ensures forall o :: !Arranged(receipts, o)
  {
    forall o ensures !Arranged(receipts, o) {
      if Arranged(receipts, o) {
        ArrangedHoldsEverySequence(receipts, o, s);
        assert false;
      }
    }
  }

  /** Pairwise distinct members of a sequence of the same length are all of it. */
  lemma {:induction false} DistinctSameLength<T>(s: seq<T>, t: seq<T>)
    requires |s| == |t| && Distinct(t) && forall x :: x in t ==> x in s
    ensures multiset(s) == multiset(t)
  {
    forall x | x in t ensures multiset(t)[x] <= multiset(s)[x] {
      var i :| 0 <= i < |t| && t[i] == x;
      assert forall j :: 0 <= j < |t| && j != i ==> t[j] != t[i];
      OnceInSequence(t, i);
    }
    assert multiset(t) <= multiset(s);
    assert |multiset(s) - multiset(t)| == 0;
    assert multiset(s) == multiset(t) + (multiset(s) - multiset(t));
  }

  method VerifyAnchorChain(ledger: seq<Line>, receipts: seq<Receipt>, trusted: map<KeyId, PublicKey>,
                           asOf: int, revoked: set<KeyId>)
    returns (summary: Option<ChainSummary>)
    ensures summary.Some? <==> Accepted(ledger, receipts, trusted, asOf, revoked)
    ensures summary.Some? ==> forall ordered :: Arranged(receipts, ordered) ==>
              ordered != [] && summary.value == SummaryOfChain(ordered, asOf)
  {
    if receipts == [] {
      assert forall o :: Arranged(receipts, o) ==> |o| == |multiset(o)| == 0;
      return None;
    }
    var arranged := Arrange(receipts);
    if arranged.None? {
      if exists r :: r in receipts && !ReceiptOk(r) {
        InvalidReceiptNotAccepted(ledger, receipts, trusted, asOf, revoked);
      }
      return None;
    }
    var ordered := arranged.value;
    ArrangementUnique(receipts, ordered);
    assert |ordered| == |multiset(ordered)| == |receipts|;
    var i := 0;
    while i < |ordered|
      invariant i <= |ordered|
      invariant forall k :: 0 <= k < i ==> LinkOk(ledger, ordered, k, trusted, asOf, revoked)
    {
      if !LinkOk(ledger, ordered, i, trusted, asOf, revoked) {
        return None;
      }
      i := i + 1;
    }
    return Some(SummaryOfChain(ordered, asOf));
  }

  lemma ArrangementUnique(receipts: seq<Receipt>, a: seq<Receipt>)
    requires Arranged(receipts, a)
    ensures forall b :: Arranged(receipts, b) ==> b == a
  {
    forall b | Arranged(receipts, b) ensures b == a {
      assert |a| == |multiset(a)| == |multiset(b)| == |b|;
      forall i | 0 <= i < |a| ensures a[i] == b[i] {
        assert a[i] in multiset(b);
        var j :| 0 <= j < |b| && b[j] == a[i];
      }
    }
  }

  lemma InvalidReceiptNotAccepted(ledger: seq<Line>, receipts: seq<Receipt>, trusted: map<KeyId, PublicKey>,
                                  asOf: int, revoked: set<KeyId>)
    requires exists r :: r in receipts && !ReceiptOk(r)
    ensures !Accepted(ledger, receipts, trusted, asOf, revoked)
  {
    var r :| r in receipts && !ReceiptOk(r);
    forall o | Arranged(receipts, o) ensures !LinkedChain(ledger, o, trusted, asOf, revoked) {
      assert r in multiset(o);
      var i :| 0 <= i < |o| && o[i] == r;
      assert !LinkOk(ledger, o, i, trusted, asOf, revoked);
    }
  }

  // ---------------------------------------------------------------- main results

  /** Acceptance and summary do not depend on the order in which receipts are supplied. */
  lemma OrderIrrelevant(ledger: seq<Line>, a: seq<Receipt>, b: seq<Receipt>, trusted: map<KeyId, PublicKey>,
                        asOf: int, revoked: set<KeyId>)
    requires multiset(a) == multiset(b)
    ensures Accepted(ledger, a, trusted, asOf, revoked) <==> Accepted(ledger, b, trusted, asOf, revoked)
    ensures forall o, p :: Arranged(a, o) && Arranged(b, p) ==> o == p
  {
    forall o | Arranged(a, o) ensures forall p :: Arranged(b, p) ==> o == p {
      ArrangementUnique(a, o);
      assert forall p :: Arranged(b, p) ==> Arranged(a, p);
    }
    forall o ensures Arranged(a, o) <==> Arranged(b, o) {}
  }

  /** Two ledgers accepted for the same receipts are both at least as long as the last anchored prefix
      and agree on it entry by entry. */
  lemma AcceptedLedgersAgree(first: seq<Line>, second: seq<Line>, receipts: seq<Receipt>, ordered: seq<Receipt>,
                             trusted: map<KeyId, PublicKey>, asOf1: int, asOf2: int,
                             revoked1: set<KeyId>, revoked2: set<KeyId>)
    requires Accepted(first, receipts, trusted, asOf1, revoked1)
    requires Accepted(second, receipts, trusted, asOf2, revoked2)
    requires Arranged(receipts, ordered)
    ensures ordered != []
    ensures var n := ordered[|ordered| - 1].EntrySequence();
            1 <= n <= |first| && n <= |second| && first[..n] == second[..n]
  {
    ArrangementUnique(receipts, ordered);
    assert LinkedChain(first, ordered, trusted, asOf1, revoked1);
    assert LinkedChain(second, ordered, trusted, asOf2, revoked2);
    var i := |ordered| - 1;
    assert LinkOk(first, ordered, i, trusted, asOf1, revoked1);
    assert LinkOk(second, ordered, i, trusted, asOf2, revoked2);
  }

  function AnchorBefore(ordered: seq<Receipt>, i: nat): PreviousAnchor
    requires i < |ordered|
  {
    if i == 0 then NO_ANCHOR else AnchorOf(ordered[i - 1])
  }

  ghost predicate BackLinked(ordered: seq<Receipt>) {
    forall i {:trigger AnchorBefore(ordered, i)} :: 0 <= i < |ordered| ==>
      ordered[i].statement.body.checkpoint.body.previousAnchor == AnchorBefore(ordered, i)
  }

  lemma {:induction false} BackLinkedFrom(a: seq<Receipt>, i: nat, b: seq<Receipt>, j: nat)
    requires BackLinked(a) && BackLinked(b) && i < |a| && j < |b| && a[i] == b[j]
    ensures i == j && forall k :: 0 <= k <= i ==> a[k] == b[k]
  {
    SameAnchor(a, i, b, j);
    if i > 0 {
      BackLinkedFrom(a, i - 1, b, j - 1);
    }
  }

  lemma SameAnchor(a: seq<Receipt>, i: nat, b: seq<Receipt>, j: nat)
    requires BackLinked(a) && BackLinked(b) && i < |a| && j < |b| && a[i] == b[j]
    ensures i == 0 <==> j == 0
    ensures i > 0 ==> a[i - 1] == b[j - 1]
  {
    assert AnchorBefore(a, i) == AnchorBefore(b, j);
  }

  lemma LinkedIsBackLinked(ledger: seq<Line>, ordered: seq<Receipt>, trusted: map<KeyId, PublicKey>, asOf: int,
                           revoked: set<KeyId>)
    requires LinkedChain(ledger, ordered, trusted, asOf, revoked)
    ensures BackLinked(ordered)
  {
    forall i | 0 <= i < |ordered|
      ensures ordered[i].statement.body.checkpoint.body.previousAnchor == AnchorBefore(ordered, i)
    {
      assert LinkOk(ledger, ordered, i, trusted, asOf, revoked);
    }
  }

  /** The last receipt of an accepted chain fixes every receipt before it: two accepted chains, against
      whatever ledgers, keys and times, that end in the same receipt are the same chain. */
  lemma LastReceiptFixesChain(
    la: seq<Line>, a: seq<Receipt>, ta: map<KeyId, PublicKey>, na: int, ra: set<KeyId>,
    lb: seq<Line>, b: seq<Receipt>, tb: map<KeyId, PublicKey>, nb: int, rb: set<KeyId>)
    requires LinkedChain(la, a, ta, na, ra) && LinkedChain(lb, b, tb, nb, rb)
    requires a[|a| - 1] == b[|b| - 1]
    ensures a == b
  {
    LinkedIsBackLinked(la, a, ta, na, ra);
    LinkedIsBackLinked(lb, b, tb, nb, rb);
    BackLinkedFrom(a, |a| - 1, b, |b| - 1);
  }

  ghost predicate TimesAscend(ordered: seq<Receipt>) {
    forall i :: 0 < i < |ordered| ==> ordered[i - 1].SignedAt() <= ordered[i].SignedAt()
  }

  lemma LinkedTimesAscend(ledger: seq<Line>, ordered: seq<Receipt>, trusted: map<KeyId, PublicKey>, asOf: int,
                          revoked: set<KeyId>)
    requires LinkedChain(ledger, ordered, trusted, asOf, revoked)
    ensures TimesAscend(ordered)
  {
    forall i | 0 < i < |ordered| ensures ordered[i - 1].SignedAt() <= ordered[i].SignedAt() {
      assert LinkOk(ledger, ordered, i, trusted, asOf, revoked);
    }
  }

  lemma {:induction false} AscendingTimes(ordered: seq<Receipt>, i: nat, j: nat)
    requires TimesAscend(ordered) && i <= j < |ordered|
    ensures ordered[i].SignedAt() <= ordered[j].SignedAt()
    decreases j
  {
    if i < j {
      AscendingTimes(ordered, i, j - 1);
    }
  }

  /** Witness times do not fall along a verified chain. */
  lemma SignedBeforeLast(ledger: seq<Line>, ordered: seq<Receipt>, trusted: map<KeyId, PublicKey>,
                         asOf: int, revoked: set<KeyId>, i: nat, j: nat)
    requires LinkedChain(ledger, ordered, trusted, asOf, revoked) && i <= j < |ordered|
    ensures ordered[i].SignedAt() <= ordered[j].SignedAt()
  {
    LinkedTimesAscend(ledger, ordered, trusted, asOf, revoked);
    AscendingTimes(ordered, i, j);
  }

  /** Extending a verified ledger keeps every receipt verified, at any later time. */
  lemma StillVerifies(ledger: seq<Line>, extended: seq<Line>, r: Receipt, key: PublicKey, asOf: int, later: int,
                      revoked: set<KeyId>)
    requires ReceiptVerifies(ledger, r, key, asOf, revoked) && r.SignedAt() <= later
    requires Verified(extended) && ledger <= extended
    ensures ReceiptVerifies(extended, r, key, later, revoked)
  {
    var n := r.EntrySequence();
    assert extended[..n] == ledger[..n];
  }

  /** What preparing a checkpoint after a receipt has established; in particular, it was prepared no
      earlier than that receipt was witnessed. */
  lemma PreparedAfter(ledger: seq<Line>, ledgerId: string, requester: string, createdAt: int, last: Receipt,
                      key: PublicKey)
    requires PrepareCheckpoint(ledger, ledgerId, requester, createdAt, Some(last), Some(key)).Some?
    ensures var c := PrepareCheckpoint(ledger, ledgerId, requester, createdAt, Some(last), Some(key)).value.body;
            && Verified(ledger) && ledger != []
            && c.checkpointSequence == last.Sequence() + 1
            && c.ledgerId == last.LedgerId()
            && c.entrySequence == |ledger| > last.EntrySequence()
            && Records(c, ledger)
            && c.previousAnchor == AnchorOf(last)
            && last.SignedAt() <= createdAt == c.createdAt
  {
  }

  /** What preparing and finalizing have established about a receipt. */
  lemma NewReceiptVerifies(extended: seq<Line>, c: Checkpoint, r: Receipt, key: PublicKey, later: int,
                           revoked: set<KeyId>)
    requires Verified(extended) && extended != []
    requires c.body.entrySequence == |extended| && Records(c.body, extended)
    requires r.statement.body.checkpoint == c && ReceiptOk(r) && Verifies(key, r.statement, r.signature)
    requires r.statement.body.keyId == PublicKeyId(key) && PublicKeyId(key) !in revoked
    requires r.statement.body.revocation.revokedAt.None? && r.SignedAt() <= later
    ensures ReceiptVerifies(extended, r, key, later, revoked)
  {
    assert extended[..|extended|] == extended;
  }

  lemma ChainSnoc(ledger: seq<Line>, extended: seq<Line>, ordered: seq<Receipt>, r: Receipt,
                  trusted: map<KeyId, PublicKey>, asOf: int, later: int, revoked: set<KeyId>)
    requires LinkedChain(ledger, ordered, trusted, asOf, revoked)
    requires Verified(extended) && ledger <= extended
    requires var last := ordered[|ordered| - 1];
             && r.LedgerId() == ordered[0].LedgerId()
             && r.EntrySequence() > last.EntrySequence()
             && r.statement.body.checkpoint.body.previousAnchor == AnchorOf(last)
             && last.SignedAt() <= r.SignedAt() <= later
             && r.Generation() >= last.Generation()
    requires r.statement.body.keyId in trusted
             && ReceiptVerifies(extended, r, trusted[r.statement.body.keyId], later, revoked)
    ensures LinkedChain(extended, ordered + [r], trusted, later, revoked)
  {
    OldLinksOk(ledger, extended, ordered, ordered + [r], trusted, asOf, later, revoked);
    NewLinkOk(extended, ordered, r, trusted, later, revoked);
  }

  lemma OldLinkAt(ledger: seq<Line>, extended: seq<Line>, ordered: seq<Receipt>, all: seq<Receipt>, i: nat,
                  trusted: map<KeyId, PublicKey>, asOf: int, later: int, revoked: set<KeyId>)
    requires LinkedChain(ledger, ordered, trusted, asOf, revoked) && ordered <= all && i < |ordered|
    requires Verified(extended) && ledger <= extended && ordered[i].SignedAt() <= later
    ensures LinkOk(extended, all, i, trusted, later, revoked)
  {
    assert LinkOk(ledger, ordered, i, trusted, asOf, revoked);
    OldLinkOk(ledger, extended, ordered, all, i, trusted, asOf, later, revoked);
  }

  lemma OldLinksOk(ledger: seq<Line>, extended: seq<Line>, ordered: seq<Receipt>, all: seq<Receipt>,
                   trusted: map<KeyId, PublicKey>, asOf: int, later: int, revoked: set<KeyId>)
    requires LinkedChain(ledger, ordered, trusted, asOf, revoked) && ordered <= all
    requires Verified(extended) && ledger <= extended && ordered[|ordered| - 1].SignedAt() <= later
    ensures forall i :: 0 <= i < |ordered| ==> LinkOk(extended, all, i, trusted, later, revoked)
  {
    LinkedTimesAscend(ledger, ordered, trusted, asOf, revoked);
    forall i | 0 <= i < |ordered| ensures LinkOk(extended, all, i, trusted, later, revoked) {
      AscendingTimes(ordered, i, |ordered| - 1);
      OldLinkAt(ledger, extended, ordered, all, i, trusted, asOf, later, revoked);
    }
  }

  lemma NewLinkOk(extended: seq<Line>, ordered: seq<Receipt>, r: Receipt, trusted: map<KeyId, PublicKey>,
                  later: int, revoked: set<KeyId>)
    requires ordered != []
    requires var last := ordered[|ordered| - 1];
             && r.LedgerId() == ordered[0].LedgerId()
             && r.EntrySequence() > last.EntrySequence()
             && r.statement.body.checkpoint.body.previousAnchor == AnchorOf(last)
             && last.SignedAt() <= r.SignedAt()
             && r.Generation() >= last.Generation()
    requires r.statement.body.keyId in trusted
             && ReceiptVerifies(extended, r, trusted[r.statement.body.keyId], later, revoked)
    ensures LinkOk(extended, ordered + [r], |ordered|, trusted, later, revoked)
  {
  }

  /** The place of a receipt in the chain depends on nothing after it. */
  lemma SameLink(ledger: seq<Line>, extended: seq<Line>, ordered: seq<Receipt>, all: seq<Receipt>, i: nat,
                 trusted: map<KeyId, PublicKey>, asOf: int, later: int, revoked: set<KeyId>)
    requires ordered <= all && i < |ordered| && LinkOk(ledger, ordered, i, trusted, asOf, revoked)
    requires ReceiptVerifies(extended, ordered[i], trusted[ordered[i].statement.body.keyId], later, revoked)
    ensures LinkOk(extended, all, i, trusted, later, revoked)
  {
    assert all[i] == ordered[i] && all[0] == ordered[0] && (i > 0 ==> all[i - 1] == ordered[i - 1]);
  }

  lemma OldLinkOk(ledger: seq<Line>, extended: seq<Line>, ordered: seq<Receipt>, all: seq<Receipt>, i: nat,
                  trusted: map<KeyId, PublicKey>, asOf: int, later: int, revoked: set<KeyId>)
    requires ordered <= all && i < |ordered| && LinkOk(ledger, ordered, i, trusted, asOf, revoked)
    requires Verified(extended) && ledger <= extended && ordered[i].SignedAt() <= later
    ensures LinkOk(extended, all, i, trusted, later, revoked)
  {
    StillVerifies(ledger, extended, ordered[i], trusted[ordered[i].statement.body.keyId], asOf, later, revoked);
    SameLink(ledger, extended, ordered, all, i, trusted, asOf, later, revoked);
  }

  /** The honest pipeline extends a verified chain: ledger appended to, checkpoint prepared after the last
      receipt, witnessed, finalized with a trusted and unrevoked key and a revocation generation not below
      the last. That witness times stay ordered is derived, not required. */
  lemma ExtendedChainVerifies(
    ledger: seq<Line>, extended: seq<Line>, receipts: seq<Receipt>, ordered: seq<Receipt>,
    trusted: map<KeyId, PublicKey>, asOf: int, revoked: set<KeyId>,
    ledgerId: string, requester: string, createdAt: int, previousKey: PublicKey, c: Checkpoint,
    witnessId: string, organization: string, signedAt: int, key: PublicKey, keyFrom: int, keyTo: int,
    generation: int, checkedAt: int, s: Statement, signature: Signature<Statement>, r: Receipt, later: int)
    requires Accepted(ledger, receipts, trusted, asOf, revoked) && Arranged(receipts, ordered) && ordered != []
    requires Verified(extended) && ledger <= extended
    requires PublicKeyId(key) in trusted && trusted[PublicKeyId(key)] == key && PublicKeyId(key) !in revoked
    requires generation >= ordered[|ordered| - 1].Generation() && signedAt <= later
    requires PrepareCheckpoint(extended, ledgerId, requester, createdAt, Some(ordered[|ordered| - 1]),
                               Some(previousKey)) == Some(c)
    requires PrepareWitnessStatement(c, witnessId, organization, signedAt, key, keyFrom, keyTo, generation,
                                     checkedAt) == Some(s)
    requires FinalizeReceipt(s, signature, key) == Some(r)
    ensures Accepted(extended, receipts + [r], trusted, later, revoked)
    ensures r.EntrySequence() == |extended| && r.SignedAt() == signedAt
  {
    ArrangementUnique(receipts, ordered);
    var last := ordered[|ordered| - 1];
    PreparedAfter(extended, ledgerId, requester, createdAt, last, previousKey);
    FinalizedReceipt(c, witnessId, organization, signedAt, key, keyFrom, keyTo, generation, checkedAt, s, signature, r);
    NextLinks(ledger, extended, ordered, trusted, asOf, revoked, c.body, key, r, later);
    assert Arranged(receipts + [r], ordered + [r]);
  }

  /** A receipt that continues the last of a chain and records the extended ledger extends the chain. */
  lemma NextLinks(ledger: seq<Line>, extended: seq<Line>, ordered: seq<Receipt>, trusted: map<KeyId, PublicKey>, asOf: int,
                  revoked: set<KeyId>, c: CheckpointBody, key: PublicKey, r: Receipt, later: int)
    requires LinkedChain(ledger, ordered, trusted, asOf, revoked) && Verified(extended) && ledger <= extended
    requires PublicKeyId(key) in trusted && trusted[PublicKeyId(key)] == key && PublicKeyId(key) !in revoked
    requires c == r.statement.body.checkpoint.body && c.entrySequence == |extended| && Records(c, extended)
    requires ReceiptOk(r) && Verifies(key, r.statement, r.signature) && r.statement.body.keyId == PublicKeyId(key)
    requires r.statement.body.revocation.revokedAt.None? && c.createdAt <= r.SignedAt() <= later
    requires var last := ordered[|ordered| - 1];
             && c.ledgerId == last.LedgerId() && c.entrySequence > last.EntrySequence()
             && c.previousAnchor == AnchorOf(last) && last.SignedAt() <= c.createdAt && r.Generation() >= last.Generation()
    ensures LinkedChain(extended, ordered + [r], trusted, later, revoked)
  {
    NewReceiptVerifies(extended, r.statement.body.checkpoint, r, key, later, revoked);
    assert LinkOk(ledger, ordered, |ordered| - 1, trusted, asOf, revoked);
    ChainSnoc(ledger, extended, ordered, r, trusted, asOf, later, revoked);
  }

  lemma FinalizedReceipt(
    c: Checkpoint, witnessId: string, organization: string, signedAt: int, key: PublicKey, keyFrom: int, keyTo: int,
    generation: int, checkedAt: int, s: Statement, signature: Signature<Statement>, r: Receipt)
    requires PrepareWitnessStatement(c, witnessId, organization, signedAt, key, keyFrom, keyTo, generation,
                                     checkedAt) == Some(s)
    requires FinalizeReceipt(s, signature, key) == Some(r)
    ensures r.statement.body.checkpoint == c && ReceiptOk(r) && Verifies(key, r.statement, r.signature)
    ensures r.statement.body.keyId == PublicKeyId(key) && r.statement.body.revocation.revokedAt.None?
    ensures c.body.createdAt <= signedAt == r.SignedAt() && r.Generation() == generation
  {
  }

  /** The first receipt of the honest pipeline makes a verified chain of one. */
  lemma FirstReceiptVerifies(
    ledger: seq<Line>, trusted: map<KeyId, PublicKey>, revoked: set<KeyId>,
    ledgerId: string, requester: string, createdAt: int, c: Checkpoint,
    witnessId: string, organization: string, signedAt: int, key: PublicKey, keyFrom: int, keyTo: int,
    generation: int, checkedAt: int, s: Statement, signature: Signature<Statement>, r: Receipt, asOf: int)
    requires PublicKeyId(key) in trusted && trusted[PublicKeyId(key)] == key && PublicKeyId(key) !in revoked
    requires signedAt <= asOf
    requires PrepareCheckpoint(ledger, ledgerId, requester, createdAt, None, None) == Some(c)
    requires PrepareWitnessStatement(c, witnessId, organization, signedAt, key, keyFrom, keyTo, generation,
                                     checkedAt) == Some(s)
    requires FinalizeReceipt(s, signature, key) == Some(r)
    ensures Accepted(ledger, [r], trusted, asOf, revoked)
  {
    FinalizedReceipt(c, witnessId, organization, signedAt, key, keyFrom, keyTo, generation, checkedAt, s, signature, r);
    NewReceiptVerifies(ledger, c, r, key, asOf, revoked);
    assert LinkOk(ledger, [r], 0, trusted, asOf, revoked);
    assert Arranged([r], [r]);
  }
}
