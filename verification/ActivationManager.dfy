/**
 `CorpusActivationManager` as it runs: it rewrites the files one atomic replacement at a time, reading
 back what is on disk before each one. `journal` is the list of replacements made so far; losing power
 after any of them leaves the disk as the corresponding prefix describes.
 */
module ActivationManager {
  import opened Prelude
  import opened ActiveRelease
  import opened Activation
  import opened ActivationSafety

  /** The history on disk after k writes, one of which recorded a state, is that of `HistoryAfter`. */
  lemma HistoryOnDisk(s: Store, r: Request, k: nat)
    requires 1 <= k <= 9
    ensures History(After(s, r, k), r.candidate.digest) == HistoryAfter(s, r, k)
  {
  }

  lemma NextHistory(s: Store, r: Request, k: nat, stage: ReleaseStage)
    requires (1 <= k <= 5 && stage == PREPARATION[k - 1]) || (k == 7 && stage == FinalStage(r))
    ensures HistoryAfter(s, r, k) + [stage] == HistoryAfter(s, r, k + 1)
  {
    if k <= 5 {
      assert PREPARATION[..k] == PREPARATION[..k - 1] + [stage];
    } else {
      assert PREPARATION[..5] == PREPARATION;
    }
  }

  /** The record made from what is on disk after k writes is the planned one. */
  lemma RecordIsPlanned(s: Store, r: Request, k: nat, stage: ReleaseStage)
    requires (1 <= k <= 5 && stage == PREPARATION[k - 1]) || (k == 7 && stage == FinalStage(r))
    ensures Record(After(s, r, k), r.candidate, stage, false) == Planned(s, r, k)
  {
    HistoryOnDisk(s, r, k);
    NextHistory(s, r, k, stage);
  }

  lemma TryWritesSnoc(s: Store, r: Request, k: nat)
    requires k < 9
    ensures TryWrites(s, r, k + 1) == TryWrites(s, r, k) + [Planned(s, r, k)]
  {
  }

  /** Disk, journal and receipt after the try block and its handler. */
  ghost predicate Outcome(s: Store, j: seq<Write>, r: Request, f: Faults, disk: Store, journal: seq<Write>,
                          receipt: Option<Receipt>)
    requires FaultsOk(f)
  {
    var n := WritesIn(Reached(s, r.candidate, f));
    && disk == ApplyAll(After(s, r, n), Tail(s, r, f).writes)
    && journal == j + TryWrites(s, r, n) + Tail(s, r, f).writes
    && receipt == Tail(s, r, f).receipt
  }

  lemma Associative(a: seq<Write>, b: seq<Write>, c: seq<Write>)
    ensures a + b + c == a + (b + c)
  {
  }

  lemma OutcomeJournal(s: Store, j: seq<Write>, r: Request, f: Faults, journal: seq<Write>)
    requires FaultsOk(f)
    requires journal == j + TryWrites(s, r, WritesIn(Reached(s, r.candidate, f))) + Tail(s, r, f).writes
    ensures journal == j + Prepare(s, r, f).writes
  {
    Associative(j, TryWrites(s, r, WritesIn(Reached(s, r.candidate, f))), Tail(s, r, f).writes);
  }

  lemma OutcomeIsPrepare(s: Store, j: seq<Write>, r: Request, f: Faults, disk: Store, journal: seq<Write>,
                         receipt: Option<Receipt>)
    requires FaultsOk(f) && Outcome(s, j, r, f, disk, journal, receipt)
    ensures disk == ApplyAll(s, Prepare(s, r, f).writes)
    ensures journal == j + Prepare(s, r, f).writes
    ensures receipt == Prepare(s, r, f).receipt
  {
    PrepareEnd(s, r, f);
    OutcomeJournal(s, j, r, f, journal);
  }

  class CorpusActivationManager {
    const event: string
    const site: string
    var pointer: Option<Pointer>
    var counter: Option<int>
    var states: map<string, ReleaseState>
    var packages: map<string, Package>
    ghost var journal: seq<Write>

    function Disk(): Store
      reads this
    {
      Store(pointer, counter, states, packages)
    }

    constructor (event: string, site: string)
      ensures this.event == event && this.site == site
      ensures Disk() == EMPTY_STORE && journal == []
    {
      this.event, this.site := event, site;
      pointer, counter, states, packages := None, None, map[], map[];
      journal := [];
    }

    method StageDirectory(digest: string, package: Package)
      modifies this
      ensures Disk() == Apply(old(Disk()), StagePackage(digest, package))
      ensures journal == old(journal) + [StagePackage(digest, package)]
    {
      if digest !in packages {
        packages := packages[digest := package];
      }
      journal := journal + [StagePackage(digest, package)];
    }

    method RecordState(c: Candidate, stage: ReleaseStage, reason: bool)
      modifies this
      ensures Disk() == Apply(old(Disk()), Record(old(Disk()), c, stage, reason))
      ensures journal == old(journal) + [Record(old(Disk()), c, stage, reason)]
    {
      journal := journal + [Record(Disk(), c, stage, reason)];
      var previous := if c.digest in states then states[c.digest].history else [];
      states := states[c.digest := ReleaseState(c.digest, c.sequence, stage, previous + [stage], reason)];
    }

    method NextDeviceCounter() returns (value: int)
      modifies this
      ensures value == NextCounter(old(Disk()))
      ensures Disk() == Apply(old(Disk()), WriteCounter(value))
      ensures journal == old(journal) + [WriteCounter(value)]
    {
      var persisted := counter.GetOr(0);
      var active := if pointer.Some? then pointer.value.deviceCounter else 0;
      value := Max(persisted, active) + 1;
      counter := Some(value);
      journal := journal + [WriteCounter(value)];
    }

    /** Issue a receipt about the standing release, when the environment lets it through. */
    method StandingReceiptMethod(ghost before: Store, active: Option<string>, sequence: int, r: Request,
                                 verdict: Verdict, reason: Reason, f: Faults)
      returns (receipt: Option<Receipt>)
      requires FaultsOk(f) && active == ActiveDigest(before) && sequence == ActiveSequence(before)
      modifies this
      ensures Disk() == ApplyAll(old(Disk()), CounterWrites(old(Disk()), f))
      ensures journal == old(journal) + CounterWrites(old(Disk()), f)
      ensures receipt == if f.receiptIssued
                         then Some(StandingReceipt(before, r, verdict, reason, NextCounter(old(Disk()))))
                         else None
    {
      receipt := None;
      if f.counterLands {
        ApplyOne(Disk(), WriteCounter(NextCounter(Disk())));
        var value := NextDeviceCounter();
        if f.receiptIssued {
          receipt := Some(Receipt(r.candidate.digest, r.candidate.sequence, active,
                                  if active == Some(r.candidate.digest) then r.candidate.sequence else sequence,
                                  verdict, reason, value));
        }
      }
    }

    /** k writes of the try block that began at `s` with journal `j` have been made. */
    ghost predicate Progress(s: Store, j: seq<Write>, r: Request, k: nat)
      requires k <= 9
      reads this
    {
      Disk() == After(s, r, k) && journal == j + TryWrites(s, r, k)
    }

    method StagePlanned(ghost s: Store, ghost j: seq<Write>, r: Request)
      requires Disk() == s && journal == j
      modifies this
      ensures Progress(s, j, r, 1)
      ensures r.candidate.digest in packages && packages[r.candidate.digest] == StagedPackage(s, r.candidate)
    {
      AfterStep(s, r, 0);
      TryWritesSnoc(s, r, 0);
      StageDirectory(r.candidate.digest, r.candidate.package);
    }

    method RecordPlanned(ghost s: Store, ghost j: seq<Write>, r: Request, ghost k: nat, stage: ReleaseStage)
      requires (1 <= k <= 5 && stage == PREPARATION[k - 1]) || (k == 7 && stage == FinalStage(r))
      requires Progress(s, j, r, k)
      modifies this
      ensures Progress(s, j, r, k + 1)
      ensures packages == old(packages)
    {
      AfterStep(s, r, k);
      TryWritesSnoc(s, r, k);
      RecordIsPlanned(s, r, k, stage);
      RecordState(r.candidate, stage, false);
    }

    /** The first two steps of the `try` block: stage the package and record STAGED. */
    method Stage(ghost s: Store, ghost j: seq<Write>, r: Request, f: Faults) returns (reached: nat, valid: bool)
      requires FaultsOk(f) && Disk() == s && journal == j
      modifies this
      ensures reached == Min(2, f.steps) && (reached == 2 ==> valid == StagedPackage(s, r.candidate).valid)
      ensures Progress(s, j, r, reached)
    {
      reached, valid := 0, false;
      assert TryWrites(s, r, 0) == [];
      if f.steps == 0 { return; }
      StagePlanned(s, j, r);
      reached := 1;
      if f.steps == 1 { return; }
      RecordPlanned(s, j, r, 1, STAGED);
      reached, valid := 2, packages[r.candidate.digest].valid;
    }

    /** The first six steps of the `try` block: stage, verify, index, test, mark ready. */
    method PrepareRelease(r: Request, f: Faults) returns (reached: nat)
      requires FaultsOk(f)
      modifies this
      ensures reached == Min(6, Reached(old(Disk()), r.candidate, f))
      ensures Progress(old(Disk()), old(journal), r, reached)
    {
      ghost var s, j := Disk(), journal;
      var valid;
      reached, valid := Stage(s, j, r, f);
      if f.steps <= 2 || !valid { return; }
      reached := Index(s, j, r, f);
      if f.steps <= 4 { return; }
      RecordPlanned(s, j, r, 4, CANARY_TESTED);
      reached := 5;
      if f.steps == 5 { return; }
      RecordPlanned(s, j, r, 5, READY);
      reached := 6;
    }

    /** Steps three and four: the package is verified, then indexed. */
    method Index(ghost s: Store, ghost j: seq<Write>, r: Request, f: Faults) returns (reached: nat)
      requires FaultsOk(f) && f.steps >= 3 && Progress(s, j, r, 2)
      modifies this
      ensures reached == Min(4, f.steps) && Progress(s, j, r, reached)
    {
      RecordPlanned(s, j, r, 2, VERIFIED);
      reached := 3;
      if f.steps == 3 { return; }
      RecordPlanned(s, j, r, 3, INDEXED);
      reached := 4;
    }

    /** The rest of the `try` block: counter, receipt, final state, pointer. */
    method CommitRelease(ghost s: Store, ghost j: seq<Write>, r: Request, f: Faults)
      returns (reached: nat, receipt: Option<Receipt>)
      requires FaultsOk(f) && f.steps >= 6 && Progress(s, j, r, 6)
      modifies this
      ensures reached == f.steps
      ensures Progress(s, j, r, WritesIn(reached))
      ensures receipt == if reached >= 8 then Some(SuccessReceipt(s, r)) else None
    {
      var c := r.candidate;
      var floor := if pointer.Some? then pointer.value.sequenceFloor else 0;
      var used := if pointer.Some? then pointer.value.usedAuthorizations else [];
      reached, receipt := 6, None;
      if f.steps == 6 { return; }
      var value := CountPlanned(s, j, r);
      reached := 7;
      if f.steps == 7 { return; }
      reached := 8;
      receipt := Some(Receipt(c.digest, c.sequence, Some(c.digest), c.sequence,
                              if r.Activate? then Success else Recovered,
                              if r.Activate? then ACTIVATED else RECOVERY_ACTIVATED, value));
      if f.steps == 8 { return; }
      RecordPlanned(s, j, r, 7, FinalStage(r));
      reached := 9;
      if f.steps == 9 { return; }
      CommitPointer(s, j, r, floor, used, value);
      reached := 10;
    }

    /** The last step: write the pointer. */
    method CommitPointer(ghost s: Store, ghost j: seq<Write>, r: Request, floor: int, used: seq<string>, value: int)
      requires Progress(s, j, r, 8) && floor == Floor(s) && used == Used(s) && value == NextCounter(s)
      modifies this
      ensures Progress(s, j, r, 9)
    {
      AfterStep(s, r, 8);
      TryWritesSnoc(s, r, 8);
      var next := Pointer(
        r.candidate.digest, r.candidate.sequence, Max(floor, r.candidate.sequence), FinalMode(r), value, used + Markers(r),
        match r
        case Recover(_, Exceptional(id, nonce, _, _, _, _, _, _, blocked)) => Some(ServingPolicy(id, nonce, blocked))
        case _ => None);
      pointer := Some(next);
      journal := journal + [WritePointer(next)];
    }

    method CountPlanned(ghost s: Store, ghost j: seq<Write>, r: Request) returns (value: int)
      requires Progress(s, j, r, 6)
      modifies this
      ensures Progress(s, j, r, 7) && value == NextCounter(s)
    {
      AfterStep(s, r, 6);
      TryWritesSnoc(s, r, 6);
      value := NextDeviceCounter();
    }

    method TryBlock(r: Request, f: Faults) returns (reached: nat, receipt: Option<Receipt>)
      requires FaultsOk(f)
      modifies this
      ensures reached == Reached(old(Disk()), r.candidate, f)
      ensures Progress(old(Disk()), old(journal), r, WritesIn(reached))
      ensures receipt == if reached >= 8 then Some(SuccessReceipt(old(Disk()), r)) else None
    {
      ghost var s, j := Disk(), journal;
      reached := PrepareRelease(r, f);
      receipt := None;
      if reached == 6 {
        reached, receipt := CommitRelease(s, j, r, f);
      }
    }

    method TryAndHandle(r: Request, f: Faults) returns (receipt: Option<Receipt>)
      requires FaultsOk(f)
      modifies this
      ensures Outcome(old(Disk()), old(journal), r, f, Disk(), journal, receipt)
    {
      ghost var s := Disk();
      var active := if pointer.Some? then Some(pointer.value.activeDigest) else None;
      var sequence := if pointer.Some? then pointer.value.activeSequence else 0;
      var reached;
      reached, receipt := TryBlock(r, f);
      if reached < STEPS || f.raised {
        receipt := HandleException(s, active, sequence, r, receipt, f);
      }
    }

    method PrepareAndCommit(r: Request, f: Faults) returns (receipt: Option<Receipt>)
      requires FaultsOk(f)
      modifies this
      ensures Disk() == ApplyAll(old(Disk()), Prepare(old(Disk()), r, f).writes)
      ensures journal == old(journal) + Prepare(old(Disk()), r, f).writes
      ensures receipt == Prepare(old(Disk()), r, f).receipt
    {
      receipt := TryAndHandle(r, f);
      OutcomeIsPrepare(old(Disk()), old(journal), r, f, Disk(), journal, receipt);
    }

    /** The exception handler: record REJECTED, read the pointer again, and either hand out the success
        receipt after all or issue a failure receipt. */
    method HandleException(ghost before: Store, active: Option<string>, sequence: int, r: Request,
                           success: Option<Receipt>, f: Faults)
      returns (receipt: Option<Receipt>)
      requires FaultsOk(f) && active == ActiveDigest(before) && sequence == ActiveSequence(before)
      modifies this
      ensures Disk() == ApplyAll(old(Disk()), ExceptionWrites(old(Disk()), r.candidate, f))
      ensures journal == old(journal) + ExceptionWrites(old(Disk()), r.candidate, f)
      ensures receipt ==
              if ActiveDigest(old(Disk())) == Some(r.candidate.digest) then success
              else if f.receiptIssued
              then Some(StandingReceipt(before, r, FailedResult, ACTIVATION_FAILED, NextCounter(old(Disk()))))
              else None
    {
      ghost var t := Disk();
      var live := RejectAndReread(r.candidate, f);
      if live {
        receipt := success;
      } else {
        ghost var reject := if f.rejectLands then [Record(t, r.candidate, REJECTED, f.reason)] else [];
        ApplyAllConcat(t, reject, CounterWrites(t, f));
        receipt := StandingReceiptMethod(before, active, sequence, r, FailedResult, ACTIVATION_FAILED, f);
      }
    }

    /** The exception handler: record REJECTED, then read the pointer again. */
    method RejectAndReread(c: Candidate, f: Faults) returns (live: bool)
      modifies this
      ensures var s := old(Disk());
              var reject := if f.rejectLands then [Record(s, c, REJECTED, f.reason)] else [];
              && Disk() == ApplyAll(s, reject)
              && journal == old(journal) + reject
              && CounterWrites(Disk(), f) == CounterWrites(s, f)
              && NextCounter(Disk()) == NextCounter(s)
              && live == (ActiveDigest(s) == Some(c.digest))
    {
      ghost var s := Disk();
      if f.rejectLands {
        ApplyOne(s, Record(s, c, REJECTED, f.reason));
        RecordState(c, REJECTED, f.reason);
      }
      live := pointer.Some? && pointer.value.activeDigest == c.digest;
    }

    /** `activate`, `recover` and `recover_exceptionally`: decide, then prepare and commit. */
    method Handle(r: Request, f: Faults) returns (receipt: Option<Receipt>)
      requires FaultsOk(f)
      modifies this
      ensures Disk() == ApplyAll(old(Disk()), Perform(old(Disk()), r, event, site, f).writes)
      ensures journal == old(journal) + Perform(old(Disk()), r, event, site, f).writes
      ensures receipt == Perform(old(Disk()), r, event, site, f).receipt
    {
      var gate := Decide(Disk(), r, event, site);
      var active := if pointer.Some? then Some(pointer.value.activeDigest) else None;
      var sequence := if pointer.Some? then pointer.value.activeSequence else 0;
      match gate
      case Proceed =>
        receipt := PrepareAndCommit(r, f);
      case AlreadyActive =>
        receipt := StandingReceiptMethod(Disk(), active, sequence, r, Success, ALREADY_ACTIVE, f);
      case Rollback =>
        receipt := StandingReceiptMethod(Disk(), active, sequence, r, RejectedResult, SEQUENCE_ROLLBACK, f);
      case NotAuthorized =>
        receipt := StandingReceiptMethod(Disk(), active, sequence, r, RejectedResult, RECOVERY_NOT_AUTHORIZED, f);
    }
  }
}
