/**
 Reconciling one accepted activation with what the restarted process serves. `Judge` decides one
 observation, `Advance` is the effect of one call on the monitor, and `Results` is what a sequence of
 calls returns.
 */
module DeploymentReconciliation {
  import opened Prelude
  import opened ActivationContracts

  datatype State = PENDING | RESTARTING | VERIFIED | FAILED

  datatype Reason =
    | RESTART_REQUIRED | RESTART_IN_PROGRESS | AWAITING_TARGET_STATUS | TARGET_SERVING_VERIFIED
    | TARGET_STATUS_REJECTED | RESTART_ATTEMPTS_EXHAUSTED | RECONCILIATION_TIMEOUT

  datatype Outcome = Outcome(
    state: State, reason: Reason, target: Identity, observedDigest: Option<string>, observedSequence: Option<int>,
    restartAttempts: int, maximumAttempts: int, elapsedSeconds: int, timeoutSeconds: int)

  datatype Config = Config(target: Identity, maximumAttempts: int, timeoutSeconds: int)

  datatype Seconds = Finite(value: real) | NotFinite

  /** One call: the status seen, if any, which may be malformed, and the progress of the restart. */
  datatype Observation = Observation(
    status: Option<Status>, restartAttempts: int, elapsed: Seconds, restartInProgress: bool)

  datatype Monitor = Monitor(terminal: Option<Outcome>, lastAttempts: int, lastElapsed: real)

  datatype ReconciliationError = InvalidInput | MovedBackward

  const FRESH := Monitor(None, 0, 0.0)

  predicate Terminal(o: Outcome) {
    o.state == VERIFIED || o.state == FAILED
  }

  /** The receipt says that a production activation was accepted. */
  predicate Acceptable(r: Receipt) {
    ReceiptOk(r) && r.result == SUCCESS && r.activated == Some(r.desired) && r.toState == "ACTIVE"
  }

  predicate ConfigOk(c: Config) {
    1 <= c.maximumAttempts <= 100 && 1 <= c.timeoutSeconds <= 86400
  }

  predicate InputOk(o: Observation) {
    && o.restartAttempts >= 0
    && o.elapsed.Finite? && o.elapsed.value >= 0.0
    && (o.restartInProgress ==> o.restartAttempts >= 1)
    && (o.status.Some? ==> StatusOk(o.status.value))
  }

  predicate Forward(m: Monitor, o: Observation)
    requires o.elapsed.Finite?
  {
    o.restartAttempts >= m.lastAttempts && o.elapsed.value >= m.lastElapsed
  }

  /** Not past the deadline or the permitted attempts. */
  predicate InBounds(c: Config, o: Observation)
    requires o.elapsed.Finite?
  {
    o.elapsed.value <= c.timeoutSeconds as real && o.restartAttempts <= c.maximumAttempts
  }

  /** The target is the release seen after a restart. */
  predicate SeesTarget(c: Config, o: Observation) {
    o.restartAttempts >= 1 && o.status.Some? && IsTarget(o.status.value, c.target)
  }

  predicate SeesServed(c: Config, o: Observation) {
    o.restartAttempts >= 1 && o.status.Some? && ShowsServed(o.status.value, c.target)
  }

  /** Nothing more can be waited for. */
  predicate Exhausted(c: Config, o: Observation)
    requires o.elapsed.Finite?
  {
    || o.elapsed.value >= c.timeoutSeconds as real
    || o.restartAttempts > c.maximumAttempts
    || (o.restartAttempts == c.maximumAttempts && !o.restartInProgress)
  }

  function Report(c: Config, o: Observation, state: State, reason: Reason): Outcome
    requires o.elapsed.Finite?
  {
    Outcome(
      state, reason, c.target,
      if o.status.Some? then o.status.value.activeDigest else None,
      if o.status.Some? then Some(o.status.value.activeSequence) else None,
      Min(o.restartAttempts, c.maximumAttempts), c.maximumAttempts,
      Min(o.elapsed.value.Floor, c.timeoutSeconds), c.timeoutSeconds)
  }

  function Judge(c: Config, o: Observation): Outcome
    requires o.elapsed.Finite?
  {
    if o.elapsed.value > c.timeoutSeconds as real then Report(c, o, FAILED, RECONCILIATION_TIMEOUT)
    else if o.restartAttempts > c.maximumAttempts then Report(c, o, FAILED, RESTART_ATTEMPTS_EXHAUSTED)
    else if SeesServed(c, o) then Report(c, o, VERIFIED, TARGET_SERVING_VERIFIED)
    else if SeesTarget(c, o) then Report(c, o, FAILED, TARGET_STATUS_REJECTED)
    else if o.elapsed.value >= c.timeoutSeconds as real then Report(c, o, FAILED, RECONCILIATION_TIMEOUT)
    else if o.restartAttempts >= c.maximumAttempts && !o.restartInProgress
    then Report(c, o, FAILED, RESTART_ATTEMPTS_EXHAUSTED)
    else if o.restartAttempts == 0 then Report(c, o, PENDING, RESTART_REQUIRED)
    else Report(c, o, RESTARTING, if o.restartInProgress then RESTART_IN_PROGRESS else AWAITING_TARGET_STATUS)
  }

  /** What one call returns. */
  function Answer(c: Config, m: Monitor, o: Observation): Result<Outcome, ReconciliationError> {
    if m.terminal.Some? then Ok(m.terminal.value)
    else if !InputOk(o) then Err(InvalidInput)
    else if !Forward(m, o) then Err(MovedBackward)
    else Ok(Judge(c, o))
  }

  /** What one call leaves behind. */
  function Advance(c: Config, m: Monitor, o: Observation): Monitor {
    if m.terminal.Some? || Answer(c, m, o).Err? then m
    else Monitor(if Terminal(Judge(c, o)) then Some(Judge(c, o)) else None, o.restartAttempts, o.elapsed.value)
  }

  function After(c: Config, os: seq<Observation>): Monitor
    decreases |os|
  {
    if os == [] then FRESH else Advance(c, After(c, os[..|os| - 1]), os[|os| - 1])
  }

  /** The answer to call `k` of a sequence of calls. */
  function AnswerAt(c: Config, os: seq<Observation>, k: nat): Result<Outcome, ReconciliationError>
    requires k < |os|
  {
    Answer(c, After(c, os[..k]), os[k])
  }

  class DeploymentReconciler {
    const config: Config
    var terminal: Option<Outcome>
    var lastRestartAttempts: int
    var lastElapsedSeconds: real

    function Memory(): Monitor
      reads this
    {
      Monitor(terminal, lastRestartAttempts, lastElapsedSeconds)
    }

    constructor (receipt: Receipt, maximumAttempts: int, timeoutSeconds: int)
      requires Acceptable(receipt) && ConfigOk(Config(receipt.desired, maximumAttempts, timeoutSeconds))
      ensures config == Config(receipt.desired, maximumAttempts, timeoutSeconds) && Memory() == FRESH
    {
      config := Config(receipt.desired, maximumAttempts, timeoutSeconds);
      terminal, lastRestartAttempts, lastElapsedSeconds := None, 0, 0.0;
    }

    /** Refuse a receipt or a configuration that is not acceptable. */
    static method Create(receipt: Receipt, maximumAttempts: int, timeoutSeconds: int)
      returns (reconciler: Result<DeploymentReconciler, ReconciliationError>)
      ensures reconciler.Ok? <==>
              && ReceiptOk(receipt) && receipt.result == SUCCESS
              && ConfigOk(Config(receipt.desired, maximumAttempts, timeoutSeconds))
      ensures reconciler.Ok? ==>
              && fresh(reconciler.value) && reconciler.value.Memory() == FRESH
              && reconciler.value.config == Config(receipt.desired, maximumAttempts, timeoutSeconds)
    {
      if !Acceptable(receipt) || !ConfigOk(Config(receipt.desired, maximumAttempts, timeoutSeconds)) {
        return Err(InvalidInput);
      }
      var created := new DeploymentReconciler(receipt, maximumAttempts, timeoutSeconds);
      return Ok(created);
    }

    method Finish(outcome: Outcome) returns (result: Outcome)
      modifies this`terminal
      ensures result == outcome && terminal == Some(outcome)
    {
      terminal := Some(outcome);
      return outcome;
    }

    method Evaluate(o: Observation) returns (answer: Result<Outcome, ReconciliationError>)
      modifies this
      ensures answer == Answer(config, old(Memory()), o)
      ensures Memory() == Advance(config, old(Memory()), o)
    {
      if terminal.Some? {
        return Ok(terminal.value);
      }
      if !InputOk(o) {
        return Err(InvalidInput);
      }
      if o.restartAttempts < lastRestartAttempts || o.elapsed.value < lastElapsedSeconds {
        return Err(MovedBackward);
      }
      lastRestartAttempts, lastElapsedSeconds := o.restartAttempts, o.elapsed.value;
      var timeout := config.timeoutSeconds as real;
      var outcome: Outcome;
      if o.elapsed.value > timeout {
        outcome := Finish(Report(config, o, FAILED, RECONCILIATION_TIMEOUT));
        return Ok(outcome);
      }
      if o.restartAttempts > config.maximumAttempts {
        outcome := Finish(Report(config, o, FAILED, RESTART_ATTEMPTS_EXHAUSTED));
        return Ok(outcome);
      }
      if SeesServed(config, o) {
        outcome := Finish(Report(config, o, VERIFIED, TARGET_SERVING_VERIFIED));
        return Ok(outcome);
      }
      if SeesTarget(config, o) {
        outcome := Finish(Report(config, o, FAILED, TARGET_STATUS_REJECTED));
        return Ok(outcome);
      }
      if o.elapsed.value >= timeout {
        outcome := Finish(Report(config, o, FAILED, RECONCILIATION_TIMEOUT));
        return Ok(outcome);
      }
      if o.restartAttempts >= config.maximumAttempts && !o.restartInProgress {
        outcome := Finish(Report(config, o, FAILED, RESTART_ATTEMPTS_EXHAUSTED));
        return Ok(outcome);
      }
      if o.restartAttempts == 0 {
        return Ok(Report(config, o, PENDING, RESTART_REQUIRED));
      }
      return Ok(Report(config, o, RESTARTING,
                       if o.restartInProgress then RESTART_IN_PROGRESS else AWAITING_TARGET_STATUS));
    }
  }

  // ---------------------------------------------------------------- one observation

  /** Each verdict says exactly what was observed. */
  lemma VerdictIff(c: Config, o: Observation)
    requires ConfigOk(c) && InputOk(o)
    ensures Judge(c, o).state == VERIFIED <==> InBounds(c, o) && SeesServed(c, o)
    ensures Judge(c, o).reason == TARGET_STATUS_REJECTED <==> InBounds(c, o) && SeesTarget(c, o) && !SeesServed(c, o)
    ensures Judge(c, o).state == FAILED <==> if SeesTarget(c, o) then !InBounds(c, o) || !SeesServed(c, o)
                                             else Exhausted(c, o)
    ensures Judge(c, o).state == PENDING <==> !Exhausted(c, o) && o.restartAttempts == 0
    ensures Judge(c, o).state == RESTARTING <==> !Exhausted(c, o) && o.restartAttempts >= 1 && !SeesTarget(c, o)
    ensures Judge(c, o).state == VERIFIED ==> Judge(c, o).reason == TARGET_SERVING_VERIFIED
  {
  }

  /** Reported figures stay inside the configured bounds. */
  lemma ReportBounded(c: Config, o: Observation)
    requires ConfigOk(c) && InputOk(o)
    ensures 0 <= Judge(c, o).restartAttempts <= c.maximumAttempts
    ensures 0 <= Judge(c, o).elapsedSeconds <= c.timeoutSeconds
    ensures Judge(c, o).state == VERIFIED ==> Judge(c, o).restartAttempts == o.restartAttempts >= 1
    ensures !Terminal(Judge(c, o)) ==> Judge(c, o).elapsedSeconds == o.elapsed.value.Floor < c.timeoutSeconds
  {
  }

  // ---------------------------------------------------------------- sequences of observations

  lemma {:induction false} TerminalStays(c: Config, os: seq<Observation>, k: nat)
    requires k <= |os| && After(c, os[..k]).terminal.Some?
    ensures After(c, os) == After(c, os[..k])
    decreases |os|
  {
    if k < |os| {
      assert os[..|os| - 1][..k] == os[..k];
      TerminalStays(c, os[..|os| - 1], k);
    } else {
      assert os[..k] == os;
    }
  }

  lemma AfterAt(c: Config, os: seq<Observation>, k: nat)
    requires k < |os|
    ensures After(c, os[..k + 1]) == Advance(c, After(c, os[..k]), os[k])
  {
    assert os[..k + 1][..k] == os[..k];
  }

  /** The first terminal result is permanent: every later call returns it, whatever it is given. */
  lemma FirstTerminalIsPermanent(c: Config, os: seq<Observation>, k: nat, j: nat)
    requires k <= j < |os| && AnswerAt(c, os, k).Ok? && Terminal(AnswerAt(c, os, k).value)
    ensures AnswerAt(c, os, j) == AnswerAt(c, os, k)
  {
    if k < j {
      AfterAt(c, os, k);
      assert os[..j][..k + 1] == os[..k + 1];
      TerminalStays(c, os[..j], k + 1);
    }
  }

  /** What a remembered terminal result is: the verdict on one of the calls, all before it undecided. */
  ghost predicate DecidedAt(c: Config, os: seq<Observation>, i: nat, outcome: Outcome) {
    && i < |os|
    && InputOk(os[i]) && After(c, os[..i]).terminal.None? && Forward(After(c, os[..i]), os[i])
    && outcome == Judge(c, os[i]) && Terminal(outcome)
  }

  lemma {:induction false} TerminalWasDecided(c: Config, os: seq<Observation>) returns (i: nat)
    requires After(c, os).terminal.Some?
    ensures DecidedAt(c, os, i, After(c, os).terminal.value)
    decreases |os|
  {
    var before := os[..|os| - 1];
    if After(c, before).terminal.Some? {
      i := TerminalWasDecided(c, before);
      assert before[..i] == os[..i];
    } else {
      i := |os| - 1;
    }
  }

  /** VERIFIED is only ever returned because some call saw exactly the accepted release, ready in
      production, after 1 to `maximumAttempts` restarts and within the timeout. */
  lemma VerifiedIsSound(c: Config, os: seq<Observation>, k: nat) returns (i: nat)
    requires ConfigOk(c) && k < |os| && AnswerAt(c, os, k).Ok? && AnswerAt(c, os, k).value.state == VERIFIED
    ensures i <= k && InputOk(os[i]) && SeesServed(c, os[i])
    ensures 1 <= os[i].restartAttempts <= c.maximumAttempts
    ensures 0.0 <= os[i].elapsed.value <= c.timeoutSeconds as real
    ensures AnswerAt(c, os, k).value.target == c.target
            && AnswerAt(c, os, k).value.observedDigest == Some(c.target.digest)
            && AnswerAt(c, os, k).value.observedSequence == Some(c.target.sequence)
  {
    if After(c, os[..k]).terminal.Some? {
      i := TerminalWasDecided(c, os[..k]);
      assert os[..k][i] == os[i];
    } else {
      i := k;
    }
    VerdictIff(c, os[i]);
  }

  /** A sequence of calls that is still undecided is inside the deadline, so no run stays undecided once
      a call at or after the deadline has been answered. */
  lemma UndecidedMeansInTime(c: Config, os: seq<Observation>, k: nat)
    requires ConfigOk(c) && k < |os| && AnswerAt(c, os, k).Ok? && !Terminal(AnswerAt(c, os, k).value)
    ensures os[k].elapsed.Finite? && os[k].elapsed.value < c.timeoutSeconds as real
    ensures os[k].restartAttempts <= c.maximumAttempts
    ensures os[k].restartAttempts == c.maximumAttempts ==> os[k].restartInProgress
    ensures forall j :: 0 <= j < k && AnswerAt(c, os, j).Ok? ==> !Terminal(AnswerAt(c, os, j).value)
  {
    if After(c, os[..k]).terminal.Some? {
      var i := TerminalWasDecided(c, os[..k]);
    }
    forall j | 0 <= j < k && AnswerAt(c, os, j).Ok? ensures !Terminal(AnswerAt(c, os, j).value) {
      if Terminal(AnswerAt(c, os, j).value) {
        FirstTerminalIsPermanent(c, os, j, k);
      }
    }
  }

  /** Whatever the calls, every answer names the accepted release and keeps its figures inside the
      configured bounds. */
  lemma EveryAnswerIsBounded(c: Config, os: seq<Observation>, k: nat)
    requires ConfigOk(c) && k < |os| && AnswerAt(c, os, k).Ok?
    ensures var r := AnswerAt(c, os, k).value;
            && r.target == c.target
            && 0 <= r.restartAttempts <= r.maximumAttempts == c.maximumAttempts
            && 0 <= r.elapsedSeconds <= r.timeoutSeconds == c.timeoutSeconds
            && (r.state == VERIFIED ==> r.restartAttempts >= 1)
            && (!Terminal(r) ==> r.elapsedSeconds < c.timeoutSeconds)
  {
    var i := k;
    if After(c, os[..k]).terminal.Some? {
      i := TerminalWasDecided(c, os[..k]);
      assert os[..k][i] == os[i];
    }
    ReportBounded(c, os[i]);
    VerdictIff(c, os[i]);
  }

  /** An undecided monitor that sees the release served in time says so. */
  lemma ServedInTimeIsVerified(c: Config, os: seq<Observation>, k: nat)
    requires ConfigOk(c) && k < |os| && After(c, os[..k]).terminal.None?
    requires InputOk(os[k]) && Forward(After(c, os[..k]), os[k])
    ensures AnswerAt(c, os, k).value.state == VERIFIED <==> InBounds(c, os[k]) && SeesServed(c, os[k])
  {
    VerdictIff(c, os[k]);
  }
}
