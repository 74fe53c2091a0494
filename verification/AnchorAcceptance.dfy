/** What the acceptance of an anchor chain says about every receipt supplied, on the fields of the receipts alone. */
module AnchorAcceptance {
  import opened Prelude
  import opened Identifiers
  import opened Crypto
  import opened Audit
  import opened AuditAnchor

  // ---------------------------------------------------------------- the ledger

  predicate KnownEvent(name: string) {
    name in {"acquisition_planned", "acquisition_completed", "acquisition_failed", "source_changed", "source_unchanged",
             "release_candidate_built", "promotion_evaluated", "evaluation_attested", "release_signing_authorized",
             "release_signed", "release_published", "release_revoked"}
  }

  /** One entry, on its fields: its place, its predecessor's digest, a known event, an actor, a subject, a payload
      digest, no step back in time, and its own digest. */
  predicate EntryStands(lines: seq<Line>, i: nat)
    requires i < |lines| && forall k :: 0 <= k < |lines| ==> lines[k].Canonical?
  {
    var b := lines[i].entry.body;
    && b.sequence == i + 1 && lines[i].entry.digest == Sha256(b)
    && b.previous == (if i == 0 then None else Some(lines[i - 1].entry.digest))
    && (i > 0 ==> lines[i - 1].entry.body.occurredAt <= b.occurredAt)
    && KnownEvent(b.eventType)
    && |b.actor| >= 3 && |b.actor| < 257 && WellFormedId(b.subjectId) && WellFormedDigest(b.payloadDigest)
  }

  lemma EntryAtIff(lines: seq<Line>, i: nat)
    requires AllCanonical(lines) && i < |lines|
    ensures EntryAt(lines, i) <==> EntryStands(lines, i)
  {
    assert i > 0 ==> lines[..i][|lines[..i]| - 1] == lines[i - 1];
  }

  /** A ledger verifies exactly when its last byte is a line feed and every line is an entry that stands. */
  lemma VerifiedIff(lines: seq<Line>)
    ensures Verified(lines) <==>
            && (lines == [] || lines[|lines| - 1].end == LineFeed || lines[|lines| - 1].end == ReturnAndFeed)
            && (forall k :: 0 <= k < |lines| ==> lines[k].Canonical?)
            && forall i :: 0 <= i < |lines| ==> EntryStands(lines, i)
  {
    if AllCanonical(lines) {
      forall i | 0 <= i < |lines| ensures EntryAt(lines, i) <==> EntryStands(lines, i) {
        EntryAtIff(lines, i);
      }
    }
  }

  /** An event is appended to a verified ledger exactly when it is a known one with an actor, a subject and a payload
      digest and not before the last entry; the entry has the next number, names the last one, and repeats the event. */
  lemma AppendIff(lines: seq<Line>, eventType: string, at: int, actor: string, subject: string, payload: string, width: nat)
    requires Verified(lines)
    ensures var b := NextBody(lines, eventType, at, actor, subject, payload, width);
            && b == Body(|lines| + 1, if lines == [] then None else Some(lines[|lines| - 1].entry.digest), eventType, at,
                         actor, subject, payload, width)
            && (Appendable(lines, b) <==>
                  && (lines != [] ==> lines[|lines| - 1].entry.body.occurredAt <= at)
                  && KnownEvent(eventType)
                  && 3 <= |actor| && |actor| <= 256 && WellFormedId(subject) && WellFormedDigest(payload))
  {
  }

  /** The characters that end a line. */
  function EndText(e: End): string {
    match e
    case LineFeed => "\n"
    case Return => "\r"
    case ReturnAndFeed => "\r\n"
    case NoEnd => ""
  }

  /** The size of a ledger is what its entries and the ends of its lines take. */
  lemma SizeSnoc(lines: seq<Line>, line: Line)
    requires AllCanonical(lines) && line.Canonical?
    ensures ByteSize([]) == 0
    ensures ByteSize(lines + [line]) == ByteSize(lines) + line.entry.body.width + |EndText(line.end)|
  {
    assert (lines + [line])[..|lines|] == lines;
  }

  // ---------------------------------------------------------------- receipts

  /** Signed by the trusted key it names, which nothing says was revoked, at a time inside the key's window and
      not after the time of verification. */
  predicate SignedInForce(r: Receipt, trusted: map<KeyId, PublicKey>, asOf: int, revoked: set<KeyId>) {
    var b := r.statement.body;
    && b.keyId in trusted && b.keyId == PublicKeyId(trusted[b.keyId])
    && r.signature == SignedBy(trusted[b.keyId], r.statement)
    && b.keyId !in revoked && b.revocation.revokedAt == None && b.revocation.reason == None
    && b.keyFrom <= b.signedAt && b.signedAt < b.keyTo && b.signedAt <= asOf
  }

  /** Identifiers are digests, the witness is not the requester, checkpoint and revocation state are not younger
      than the signature, and texts and numbers have their sizes. */
  predicate WellMade(r: Receipt) {
    var b := r.statement.body;
    var c := b.checkpoint.body;
    && r.statement.receiptId == Sha256(b) && b.checkpoint.checkpointId == Sha256(c)
    && b.witnessId != c.requester && c.createdAt <= b.signedAt && b.revocation.checkedAt <= b.signedAt
    && 3 <= |b.witnessId| <= 256 && 3 <= |c.requester| <= 256 && 1 <= |b.organization| <= 256
    && WellFormedId(c.ledgerId) && b.revocation.generation >= 1 && c.byteSize >= 1
  }

  /** The checkpoint names head, size and digest of a prefix of the ledger. */
  predicate Anchors(r: Receipt, ledger: seq<Line>) {
    var c := r.statement.body.checkpoint.body;
    && 1 <= c.entrySequence <= |ledger| && AllCanonical(ledger[..c.entrySequence])
    && c.entryDigest == ledger[c.entrySequence - 1].entry.digest
    && c.byteSize == ByteSize(ledger[..c.entrySequence])
    && c.prefixDigest == Sha256(ledger[..c.entrySequence])
  }

  /** `r` continues `q`: next checkpoint of the same ledger, further along it, naming `q` by both of its digests,
      witnessed no earlier and under revocation state no older. */
  predicate Continues(q: Receipt, r: Receipt) {
    var b, c, d := q.statement.body, r.statement.body, r.statement.body.checkpoint.body;
    && d.checkpointSequence == b.checkpoint.body.checkpointSequence + 1
    && d.ledgerId == b.checkpoint.body.ledgerId && d.entrySequence > b.checkpoint.body.entrySequence
    && d.previousAnchor.receiptId == Some(q.statement.receiptId) && d.previousAnchor.receiptDigest == Some(Sha256(q))
    && b.signedAt <= c.signedAt && b.revocation.generation <= c.revocation.generation
  }

  predicate First(r: Receipt) {
    var c := r.statement.body.checkpoint.body;
    c.checkpointSequence == 1 && c.previousAnchor.receiptId == None && c.previousAnchor.receiptDigest == None
  }

  /** One receipt of a chain, stated without the verifier. */
  predicate Stands(ledger: seq<Line>, r: Receipt, trusted: map<KeyId, PublicKey>, asOf: int, revoked: set<KeyId>) {
    SignedInForce(r, trusted, asOf, revoked) && WellMade(r) && Anchors(r, ledger)
  }

  predicate Joined(ordered: seq<Receipt>, i: nat)
    requires i < |ordered|
  {
    if i == 0 then First(ordered[0]) else Continues(ordered[i - 1], ordered[i])
  }

  ghost predicate Chain(ordered: seq<Receipt>) {
    ordered != [] && forall i :: 0 <= i < |ordered| ==> Joined(ordered, i)
  }

  /** The chain of supplied receipts, stated without the verifier. */
  ghost predicate StandsAsChain(ledger: seq<Line>, ordered: seq<Receipt>, trusted: map<KeyId, PublicKey>, asOf: int,
                                revoked: set<KeyId>) {
    && Verified(ledger) && Chain(ordered)
    && forall i :: 0 <= i < |ordered| ==> Stands(ledger, ordered[i], trusted, asOf, revoked)
  }

  lemma VerifiedReceiptIff(ledger: seq<Line>, r: Receipt, trusted: map<KeyId, PublicKey>, asOf: int, revoked: set<KeyId>)
    requires r.statement.body.keyId in trusted
    requires var c := r.statement.body.checkpoint.body;
             && c.checkpointSequence >= 1
             && (c.previousAnchor.receiptId.None? <==> c.previousAnchor.receiptDigest.None?)
             && (c.checkpointSequence == 1 <==> c.previousAnchor.receiptId.None?)
    ensures ReceiptVerifies(ledger, r, trusted[r.statement.body.keyId], asOf, revoked) <==>
            Verified(ledger) && Stands(ledger, r, trusted, asOf, revoked)
  {
  }

  lemma {:induction false} SameLedgerThroughout(ordered: seq<Receipt>, i: nat)
    requires Chain(ordered) && i < |ordered|
    ensures ordered[i].LedgerId() == ordered[0].LedgerId() && ordered[i].Sequence() == i + 1
  {
    if i > 0 {
      SameLedgerThroughout(ordered, i - 1);
      assert Joined(ordered, i);
    }
  }

  lemma LinkMeans(ledger: seq<Line>, ordered: seq<Receipt>, i: nat, trusted: map<KeyId, PublicKey>, asOf: int, revoked: set<KeyId>)
    requires i < |ordered| && ordered[i].Sequence() == i + 1 && (i > 0 ==> ordered[i - 1].Sequence() == i)
    requires LinkOk(ledger, ordered, i, trusted, asOf, revoked)
    requires i > 0 ==> ordered[i - 1].LedgerId() == ordered[0].LedgerId()
    ensures Verified(ledger) && Stands(ledger, ordered[i], trusted, asOf, revoked)
    ensures Joined(ordered, i)
  {
  }

  lemma StandsMeansLink(ledger: seq<Line>, ordered: seq<Receipt>, i: nat, trusted: map<KeyId, PublicKey>, asOf: int,
                        revoked: set<KeyId>)
    requires i < |ordered| && Verified(ledger) && Stands(ledger, ordered[i], trusted, asOf, revoked)
    requires ordered[i].LedgerId() == ordered[0].LedgerId() && ordered[i].Sequence() == i + 1
    requires Joined(ordered, i)
    ensures LinkOk(ledger, ordered, i, trusted, asOf, revoked)
  {
    VerifiedReceiptIff(ledger, ordered[i], trusted, asOf, revoked);
  }

  lemma LinkedStands(ledger: seq<Line>, ordered: seq<Receipt>, trusted: map<KeyId, PublicKey>, asOf: int, revoked: set<KeyId>)
    requires forall i :: 0 <= i < |ordered| ==> ordered[i].Sequence() == i + 1
    requires LinkedChain(ledger, ordered, trusted, asOf, revoked)
    ensures StandsAsChain(ledger, ordered, trusted, asOf, revoked)
  {
    forall i | 0 <= i < |ordered|
      ensures Joined(ordered, i)
      ensures Verified(ledger) && Stands(ledger, ordered[i], trusted, asOf, revoked)
    {
      assert LinkOk(ledger, ordered, i, trusted, asOf, revoked);
      assert i > 0 ==> LinkOk(ledger, ordered, i - 1, trusted, asOf, revoked);
      LinkMeans(ledger, ordered, i, trusted, asOf, revoked);
    }
    assert Joined(ordered, 0);
  }

  lemma StandsLinked(ledger: seq<Line>, ordered: seq<Receipt>, trusted: map<KeyId, PublicKey>, asOf: int, revoked: set<KeyId>)
    requires StandsAsChain(ledger, ordered, trusted, asOf, revoked)
    ensures LinkedChain(ledger, ordered, trusted, asOf, revoked)
  {
    forall i | 0 <= i < |ordered| ensures LinkOk(ledger, ordered, i, trusted, asOf, revoked) {
      SameLedgerThroughout(ordered, i);
      StandsMeansLink(ledger, ordered, i, trusted, asOf, revoked);
    }
  }

  lemma LinkedIff(ledger: seq<Line>, ordered: seq<Receipt>, trusted: map<KeyId, PublicKey>, asOf: int, revoked: set<KeyId>)
    requires forall i :: 0 <= i < |ordered| ==> ordered[i].Sequence() == i + 1
    ensures LinkedChain(ledger, ordered, trusted, asOf, revoked) <==> StandsAsChain(ledger, ordered, trusted, asOf, revoked)
  {
    if LinkedChain(ledger, ordered, trusted, asOf, revoked) {
      LinkedStands(ledger, ordered, trusted, asOf, revoked);
    }
    if StandsAsChain(ledger, ordered, trusted, asOf, revoked) {
      StandsLinked(ledger, ordered, trusted, asOf, revoked);
    }
  }

  /** Receipts are accepted if and only if, in some order, they form a chain in which each one is signed by its
      trusted key, in force, well made and anchors a prefix of the verified ledger. */
  lemma AcceptedIff(ledger: seq<Line>, receipts: seq<Receipt>, trusted: map<KeyId, PublicKey>, asOf: int, revoked: set<KeyId>)
    ensures Accepted(ledger, receipts, trusted, asOf, revoked) <==>
            exists ordered :: multiset(ordered) == multiset(receipts) && StandsAsChain(ledger, ordered, trusted, asOf, revoked)
  {
    forall o | Arranged(receipts, o)
      ensures LinkedChain(ledger, o, trusted, asOf, revoked) <==> StandsAsChain(ledger, o, trusted, asOf, revoked)
    {
      LinkedIff(ledger, o, trusted, asOf, revoked);
    }
    forall o: seq<Receipt> | multiset(o) == multiset(receipts) && Chain(o) ensures Arranged(receipts, o) {
      forall i | 0 <= i < |o| ensures o[i].Sequence() == i + 1 {
        SameLedgerThroughout(o, i);
      }
    }
  }

  /** Every receipt of an accepted list is signed by the trusted key it names, which was not revoked, at a time not
      after that of verification, and anchors the ledger. */
  lemma AcceptedReceiptsAreSigned(ledger: seq<Line>, receipts: seq<Receipt>, trusted: map<KeyId, PublicKey>, asOf: int,
                                  revoked: set<KeyId>, r: Receipt)
    requires Accepted(ledger, receipts, trusted, asOf, revoked) && r in receipts
    ensures var b := r.statement.body;
            && b.keyId in trusted && r.signature == SignedBy(trusted[b.keyId], r.statement)
            && b.keyId !in revoked && b.revocation.revokedAt == None && b.signedAt <= asOf
            && Anchors(r, ledger)
  {
    AcceptedIff(ledger, receipts, trusted, asOf, revoked);
    var o :| multiset(o) == multiset(receipts) && StandsAsChain(ledger, o, trusted, asOf, revoked);
    assert r in multiset(o);
    var i :| 0 <= i < |o| && o[i] == r;
    assert Stands(ledger, o[i], trusted, asOf, revoked);
  }

  /** A receipt whose signature is not the trusted key's makes the whole list unacceptable. */
  lemma UnsignedIsRefused(ledger: seq<Line>, receipts: seq<Receipt>, trusted: map<KeyId, PublicKey>, asOf: int,
                          revoked: set<KeyId>, r: Receipt, tag: nat)
    requires r.(signature := Malformed(tag)) in receipts
    ensures !Accepted(ledger, receipts, trusted, asOf, revoked)
  {
    if Accepted(ledger, receipts, trusted, asOf, revoked) {
      AcceptedReceiptsAreSigned(ledger, receipts, trusted, asOf, revoked, r.(signature := Malformed(tag)));
    }
  }

  /** The summary of an accepted list names its ledger, its length, and its last receipt. */
  lemma SummaryNamesLast(ledger: seq<Line>, receipts: seq<Receipt>, ordered: seq<Receipt>, trusted: map<KeyId, PublicKey>,
                         asOf: int, revoked: set<KeyId>, r: Receipt)
    requires Arranged(receipts, ordered) && LinkedChain(ledger, ordered, trusted, asOf, revoked) && r in receipts
    ensures var s := SummaryOfChain(ordered, asOf);
            && s.count == |receipts| && s.lastSequence == |receipts| && s.verifiedAt == asOf
            && s.ledgerId == r.statement.body.checkpoint.body.ledgerId
            && s.lastEntrySequence >= r.statement.body.checkpoint.body.entrySequence
            && (r.statement.body.checkpoint.body.checkpointSequence == |receipts| ==>
                  s.lastReceiptId == r.statement.receiptId && s.lastReceiptDigest == Sha256(r)
                  && s.lastEntrySequence == r.statement.body.checkpoint.body.entrySequence)
  {
    assert |ordered| == |multiset(ordered)| == |multiset(receipts)| == |receipts|;
    assert r in multiset(ordered);
    LinkedStands(ledger, ordered, trusted, asOf, revoked);
    LastOfChain(ordered, r);
  }

  lemma LastOfChain(ordered: seq<Receipt>, r: Receipt)
    requires Chain(ordered) && r in ordered
    ensures var last := ordered[|ordered| - 1];
            && last.Sequence() == |ordered| && ordered[0].LedgerId() == r.LedgerId()
            && last.EntrySequence() >= r.EntrySequence() && (r.Sequence() == |ordered| ==> r == last)
  {
    var i :| 0 <= i < |ordered| && ordered[i] == r;
    SameLedgerThroughout(ordered, i);
    SameLedgerThroughout(ordered, |ordered| - 1);
    EntriesRise(ordered, i, |ordered| - 1);
  }

  lemma {:induction false} EntriesRise(ordered: seq<Receipt>, i: nat, j: nat)
    requires Chain(ordered) && i <= j < |ordered|
    ensures ordered[i].EntrySequence() <= ordered[j].EntrySequence()
    decreases j
  {
    if i < j {
      EntriesRise(ordered, i, j - 1);
      assert Joined(ordered, j);
    }
  }

  // ---------------------------------------------------------------- making checkpoints and receipts

  /** A checkpoint of the whole verified ledger, made no earlier than its last entry. */
  predicate OfWholeLedger(c: Checkpoint, ledger: seq<Line>, ledgerId: string, requester: string, createdAt: int)
    requires AllCanonical(ledger)
  {
    && ledger != [] && ledger[|ledger| - 1].entry.body.occurredAt <= createdAt
    && c.checkpointId == Sha256(c.body) && c.body.ledgerId == ledgerId && WellFormedId(ledgerId)
    && c.body.requester == requester && 3 <= |requester| <= 256 && c.body.createdAt == createdAt
    && c.body.entrySequence == |ledger| && c.body.entryDigest == ledger[|ledger| - 1].entry.digest
    && c.body.byteSize == ByteSize(ledger) && ByteSize(ledger) >= 1 && c.body.prefixDigest == Sha256(ledger)
  }

  /** The checkpoint comes right after the receipt, of the same ledger, which has grown since. */
  predicate After(c: Checkpoint, last: Receipt) {
    && c.body.checkpointSequence == last.statement.body.checkpoint.body.checkpointSequence + 1
    && c.body.previousAnchor == PreviousAnchor(Some(last.statement.receiptId), Some(Sha256(last)))
    && c.body.ledgerId == last.statement.body.checkpoint.body.ledgerId
    && c.body.entrySequence > last.statement.body.checkpoint.body.entrySequence
  }

  /** The first checkpoint is made exactly of a verified ledger, with no predecessor. */
  lemma FirstCheckpointIff(ledger: seq<Line>, ledgerId: string, requester: string, createdAt: int, c: Checkpoint)
    ensures PrepareCheckpoint(ledger, ledgerId, requester, createdAt, None, None) == Some(c) <==>
            && Verified(ledger) && OfWholeLedger(c, ledger, ledgerId, requester, createdAt)
            && c.body.checkpointSequence == 1 && c.body.previousAnchor == PreviousAnchor(None, None)
  {
    if Verified(ledger) && ledger != [] {
      assert HeadTime(ledger) == Some(ledger[|ledger| - 1].entry.body.occurredAt);
    }
  }

  /** A later checkpoint is made exactly of a verified ledger after a receipt that stands on it at that time. */
  lemma NextCheckpointIff(ledger: seq<Line>, ledgerId: string, requester: string, createdAt: int, last: Receipt,
                          key: PublicKey, c: Checkpoint)
    requires last.statement.body.keyId == PublicKeyId(key)
    requires First(last) || (last.Sequence() > 1 && last.statement.body.checkpoint.body.previousAnchor.receiptId.Some?
                             && last.statement.body.checkpoint.body.previousAnchor.receiptDigest.Some?)
    ensures PrepareCheckpoint(ledger, ledgerId, requester, createdAt, Some(last), Some(key)) == Some(c) <==>
            && Verified(ledger) && OfWholeLedger(c, ledger, ledgerId, requester, createdAt) && After(c, last)
            && Stands(ledger, last, map[PublicKeyId(key) := key], createdAt, {})
  {
    VerifiedReceiptIff(ledger, last, map[PublicKeyId(key) := key], createdAt, {});
    if Verified(ledger) && ledger != [] {
      assert HeadTime(ledger) == Some(ledger[|ledger| - 1].entry.body.occurredAt);
    }
  }

  /** The witness statement is about this checkpoint, by someone other than its requester, inside the key's window,
      no earlier than the checkpoint, with a revocation state of that time. */
  lemma WitnessStatementIff(c: Checkpoint, witnessId: string, organization: string, signedAt: int, key: PublicKey,
                            keyFrom: int, keyTo: int, generation: int, checkedAt: int, s: Statement)
    requires CheckpointOk(c)
    ensures PrepareWitnessStatement(c, witnessId, organization, signedAt, key, keyFrom, keyTo, generation, checkedAt) == Some(s)
       <==> && witnessId != c.body.requester && c.body.createdAt <= signedAt && keyFrom <= signedAt < keyTo
            && checkedAt <= signedAt && generation >= 1
            && s.receiptId == Sha256(s.body) && s.body.checkpoint == c && s.body.witnessId == witnessId
            && s.body.organization == organization && s.body.signedAt == signedAt && s.body.keyId == PublicKeyId(key)
            && s.body.keyFrom == keyFrom && s.body.keyTo == keyTo
            && s.body.revocation == Revocation(generation, checkedAt, None, None)
  {
  }

  /** A receipt is a statement with the signature of the key it names. */
  lemma ReceiptIff(s: Statement, signature: Signature<Statement>, key: PublicKey, r: Receipt)
    ensures FinalizeReceipt(s, signature, key) == Some(r) <==>
            r == Receipt(s, signature) && signature == SignedBy(key, s) && s.body.keyId == PublicKeyId(key) && ReceiptOk(r)
  {
  }
}
