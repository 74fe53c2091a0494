/**
 The append-only audit ledger: one canonical line per entry, each entry naming the digest of the one
 before it.
 */
module Audit {
  import opened Prelude
  import opened Identifiers
  import opened Crypto

  const EVENT_TYPES: set<string> := {
    "acquisition_planned", "acquisition_completed", "acquisition_failed", "source_changed",
    "source_unchanged", "release_candidate_built", "promotion_evaluated", "evaluation_attested",
    "release_signing_authorized", "release_signed", "release_published", "release_revoked"
  }

  /** `width` is how many bytes the canonical text of the entry takes. */
  datatype Body = Body(
    sequence: int, previous: Option<Digest<Body>>, eventType: string, occurredAt: int,
    actor: string, subjectId: string, payloadDigest: string, width: nat)

  datatype Entry = Entry(body: Body, digest: Digest<Body>)

  /** What `bytes.splitlines` ends a line at. Only the last line may have none. */
  datatype End = LineFeed | Return | ReturnAndFeed | NoEnd

  /** A line that decodes to an entry and is its canonical text, or any other line. */
  datatype Line = Canonical(entry: Entry, end: End) | Junk(text: string, end: End)

  datatype Summary = Summary(entries: nat, lastDigest: Option<Digest<Body>>, lastTime: Option<int>)

  datatype AuditError = IncompleteFinalLine | NotCanonical | InvalidEntry

  // ---------------------------------------------------------------- specification

  /** `_validate_entry` */
  predicate EntryOk(e: Entry, sequence: int, previous: Option<Digest<Body>>, previousTime: Option<int>) {
    && e.body.sequence == sequence
    && e.body.previous == previous
    && e.body.eventType in EVENT_TYPES
    && 3 <= |e.body.actor| <= 256
    && WellFormedId(e.body.subjectId)
    && WellFormedDigest(e.body.payloadDigest)
    && (previousTime.Some? ==> previousTime.value <= e.body.occurredAt)
    && e.digest == Sha256(e.body)
  }

  function HeadDigest(lines: seq<Line>): Option<Digest<Body>>
    requires AllCanonical(lines)
  {
    if lines == [] then None else Some(lines[|lines| - 1].entry.digest)
  }

  function HeadTime(lines: seq<Line>): Option<int>
    requires AllCanonical(lines)
  {
    if lines == [] then None else Some(lines[|lines| - 1].entry.body.occurredAt)
  }

  function EndBytes(e: End): nat {
    match e
    case LineFeed => 1
    case Return => 1
    case ReturnAndFeed => 2
    case NoEnd => 0
  }

  /** The bytes of the lines, each with its end. */
  function ByteSize(lines: seq<Line>): nat
    requires AllCanonical(lines)
  {
    if lines == [] then 0 else ByteSize(lines[..|lines| - 1]) + lines[|lines| - 1].entry.body.width + EndBytes(lines[|lines| - 1].end)
  }

  predicate AllCanonical(lines: seq<Line>) {
    forall i :: 0 <= i < |lines| ==> lines[i].Canonical?
  }

  /** The entry at `i` is valid after the entries before it. */
  predicate EntryAt(lines: seq<Line>, i: nat)
    requires i < |lines| && AllCanonical(lines)
  {
    EntryOk(lines[i].entry, i + 1, HeadDigest(lines[..i]), HeadTime(lines[..i]))
  }

  /** Every entry is valid after the entries before it. */
  predicate Chained(lines: seq<Line>) {
    && AllCanonical(lines)
    && forall i :: 0 <= i < |lines| ==> EntryAt(lines, i)
  }

  /** The file is empty or its last byte is a line feed. */
  predicate Complete(lines: seq<Line>) {
    lines != [] ==> lines[|lines| - 1].end == LineFeed || lines[|lines| - 1].end == ReturnAndFeed
  }

  predicate Verified(lines: seq<Line>) {
    Complete(lines) && Chained(lines)
  }

  function SummaryOf(lines: seq<Line>): Summary
    requires AllCanonical(lines)
  {
    Summary(|lines|, HeadDigest(lines), HeadTime(lines))
  }

  // ---------------------------------------------------------------- verification loop

  method VerifyData(lines: seq<Line>) returns (result: Result<Summary, AuditError>)
    ensures result.Ok? <==> Verified(lines)
    ensures result.Ok? ==> result.value == SummaryOf(lines)
    ensures result == Err(IncompleteFinalLine) <==> !Complete(lines)
  {
    if !Complete(lines) {
      return Err(IncompleteFinalLine);
    }
    var previousDigest: Option<Digest<Body>> := None;
    var previousTime: Option<int> := None;
    var count := 0;
    while count < |lines|
      invariant count <= |lines| && Chained(lines[..count])
      invariant previousDigest == HeadDigest(lines[..count]) && previousTime == HeadTime(lines[..count])
    {
      var line := lines[count];
      if line.Junk? {
        return Err(NotCanonical);
      }
      if !EntryOk(line.entry, count + 1, previousDigest, previousTime) {
        assert AllCanonical(lines) ==> !EntryAt(lines, count);
        return Err(InvalidEntry);
      }
      ChainedSnoc(lines[..count], line);
      assert lines[..count + 1] == lines[..count] + [line];
      previousDigest, previousTime := Some(line.entry.digest), Some(line.entry.body.occurredAt);
      count := count + 1;
    }
    assert lines[..count] == lines;
    return Ok(Summary(count, previousDigest, previousTime));
  }

  lemma EntryAtPrefix(lines: seq<Line>, line: Line, i: nat)
    requires AllCanonical(lines) && line.Canonical? && i < |lines|
    ensures EntryAt(lines + [line], i) <==> EntryAt(lines, i)
  {
    assert (lines + [line])[..i] == lines[..i];
  }

  lemma ChainedSnoc(lines: seq<Line>, line: Line)
    requires Chained(lines) && line.Canonical?
    ensures Chained(lines + [line]) <==> EntryOk(line.entry, |lines| + 1, HeadDigest(lines), HeadTime(lines))
  {
    var all := lines + [line];
    forall i | 0 <= i < |lines| ensures EntryAt(all, i) {
      EntryAtPrefix(lines, line, i);
    }
    assert all[..|lines|] == lines;
    assert EntryAt(all, |lines|) <==> EntryOk(line.entry, |lines| + 1, HeadDigest(lines), HeadTime(lines));
  }

  // ---------------------------------------------------------------- the ledger file

  function NextBody(lines: seq<Line>, eventType: string, occurredAt: int, actor: string, subjectId: string,
                    payloadDigest: string, width: nat): Body
    requires AllCanonical(lines)
  {
    Body(|lines| + 1, HeadDigest(lines), eventType, occurredAt, actor, subjectId, payloadDigest, width)
  }

  /** The event can be appended: its fields are valid and time does not move backwards. */
  predicate Appendable(lines: seq<Line>, body: Body)
    requires AllCanonical(lines)
  {
    EntryOk(Entry(body, Sha256(body)), |lines| + 1, HeadDigest(lines), HeadTime(lines))
  }

  class AuditLedger {
    var lines: seq<Line>

    constructor ()
      ensures lines == []
    {
      lines := [];
    }

    method Append(eventType: string, occurredAt: int, actor: string, subjectId: string, payloadDigest: string, width: nat)
      returns (result: Result<Entry, AuditError>)
      modifies this
      ensures result.Ok? <==>
              Verified(old(lines))
              && Appendable(old(lines), NextBody(old(lines), eventType, occurredAt, actor, subjectId, payloadDigest, width))
      ensures result.Ok? ==>
                && result.value.body == NextBody(old(lines), eventType, occurredAt, actor, subjectId, payloadDigest, width)
                && lines == old(lines) + [Canonical(result.value, LineFeed)]
                && Verified(lines)
      ensures result.Err? ==> lines == old(lines)
    {
      var verified := VerifyData(lines);
      if verified.Err? {
        return Err(verified.error);
      }
      var head := verified.value;
      var body := Body(head.entries + 1, head.lastDigest, eventType, occurredAt, actor, subjectId, payloadDigest, width);
      var entry := Entry(body, Sha256(body));
      if !EntryOk(entry, body.sequence, head.lastDigest, head.lastTime) {
        return Err(InvalidEntry);
      }
      ChainedSnoc(lines, Canonical(entry, LineFeed));
      lines := lines + [Canonical(entry, LineFeed)];
      return Ok(entry);
    }
  }

  // ---------------------------------------------------------------- what the chain guarantees

  /** The first `n` lines hold the same entries; their ends may differ. */
  predicate SameEntries(a: seq<Line>, b: seq<Line>, n: nat)
    requires n <= |a| && n <= |b| && AllCanonical(a) && AllCanonical(b)
  {
    forall k :: 0 <= k < n ==> a[k].entry == b[k].entry
  }

  /** Two entries with one digest are equal, stand at one position, and name the same predecessor. */
  lemma EntryDigestFixesEntry(a: seq<Line>, b: seq<Line>, i: nat, j: nat)
    requires Chained(a) && Chained(b) && i < |a| && j < |b|
    requires a[i].entry.digest == b[j].entry.digest
    ensures a[i].entry == b[j].entry && i == j && (i > 0 ==> a[i - 1].entry.digest == b[j - 1].entry.digest)
  {
    assert EntryAt(a, i);
    assert EntryAt(b, j);
  }

  /** One entry digest fixes the whole history up to that entry: two verified ledgers that share it at
      any position hold it at the same position and have the same entries before. */
  lemma {:induction false} EntryDigestFixesHistory(a: seq<Line>, b: seq<Line>, i: nat, j: nat)
    requires Chained(a) && Chained(b) && i < |a| && j < |b|
    requires a[i].entry.digest == b[j].entry.digest
    ensures i == j && SameEntries(a, b, i + 1)
  {
    EntryDigestFixesEntry(a, b, i, j);
    if i > 0 {
      EntryDigestFixesHistory(a, b, i - 1, j - 1);
    }
  }

  /** Two verified ledgers with the same head digest have the same entries. */
  lemma HeadDigestFixesLedger(a: seq<Line>, b: seq<Line>)
    requires Chained(a) && Chained(b) && HeadDigest(a) == HeadDigest(b)
    ensures |a| == |b| && SameEntries(a, b, |a|)
  {
    if a != [] {
      EntryDigestFixesHistory(a, b, |a| - 1, |b| - 1);
    }
  }

  lemma SameEntriesChain(a: seq<Line>, b: seq<Line>)
    requires Chained(a) && AllCanonical(b) && |a| == |b| && SameEntries(a, b, |a|)
    ensures Chained(b)
  {
    forall i | 0 <= i < |b| ensures EntryAt(b, i) {
      assert EntryAt(a, i);
      assert i > 0 ==> a[..i][i - 1].entry == b[..i][i - 1].entry;
    }
  }

  /** Time never moves backwards between any two entries. */
  lemma {:induction false} TimesOrdered(lines: seq<Line>, i: nat, j: nat)
    requires Chained(lines) && i <= j < |lines|
    ensures lines[i].entry.body.occurredAt <= lines[j].entry.body.occurredAt
    decreases j
  {
    if i < j {
      TimesOrdered(lines, i, j - 1);
      assert EntryAt(lines, j);
      assert lines[..j][j - 1] == lines[j - 1];
    }
  }

  lemma SameEntriesVerify(a: seq<Line>, b: seq<Line>)
    requires Verified(a) && AllCanonical(b) && |a| == |b| && SameEntries(a, b, |a|) && Complete(b)
    ensures Verified(b)
  {
    SameEntriesChain(a, b);
  }

  lemma ReplacedHasSameEntries(lines: seq<Line>, i: nat, other: Line)
    requires AllCanonical(lines) && Complete(lines) && i + 1 < |lines| && other.Canonical? && other.entry == lines[i].entry
    ensures var changed := lines[i := other];
            AllCanonical(changed) && SameEntries(lines, changed, |lines|) && Complete(changed)
  {
  }

  lemma SameEntryStillVerifies(lines: seq<Line>, i: nat, other: Line)
    requires Verified(lines) && i + 1 < |lines| && other.Canonical? && other.entry == lines[i].entry
    ensures Verified(lines[i := other])
  {
    ReplacedHasSameEntries(lines, i, other);
    SameEntriesVerify(lines, lines[i := other]);
  }

  lemma TamperingShows(lines: seq<Line>, i: nat, other: Line)
    requires Verified(lines) && i + 1 < |lines| && Verified(lines[i := other])
    ensures other.Canonical? && other.entry == lines[i].entry
  {
    var changed := lines[i := other];
    assert changed[i] == other && HeadDigest(changed) == HeadDigest(lines);
    HeadDigestFixesLedger(lines, changed);
  }

  /** Tampering shows, except at line ends: a ledger in which one line other than the last was replaced still
      verifies if and only if the line holds the same entry, because every such entry is pinned by the
      digest its successor names. How the line ends is pinned by nothing. */
  lemma TamperingShowsIff(lines: seq<Line>, i: nat, other: Line)
    requires Verified(lines) && i + 1 < |lines|
    ensures Verified(lines[i := other]) <==> other.Canonical? && other.entry == lines[i].entry
  {
    if other.Canonical? && other.entry == lines[i].entry {
      SameEntryStillVerifies(lines, i, other);
    }
    if Verified(lines[i := other]) {
      TamperingShows(lines, i, other);
    }
  }
}
