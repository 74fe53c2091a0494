/** What the monitor of one deployment and the classifier of the fleet say, on the fields they are given. */
module RolloutMeaning {
  import opened Prelude
  import opened Identifiers
  import opened Sorting
  import opened ActivationContracts
  import DeploymentReconciliation
  import opened FleetCompliance

  // ---------------------------------------------------------------- coherent records

  /** Nothing active, a release in service, a release served under recovery, or one that is not ready. */
  predicate Coherent(s: Status) {
    if s.activeDigest == None
    then s == Status(None, 0, s.sequenceFloor, UNINITIALIZED_MODE, UNINITIALIZED, false, "NO_ACTIVE_CORPUS") && s.sequenceFloor >= 0
    else
      && WellFormedDigest(s.activeDigest.value) && 1 <= s.activeSequence && s.activeSequence <= s.sequenceFloor
      && (|| (s.ready && s.mode == PRODUCTION && s.state == ACTIVE && s.reasonCode == "READY")
          || (s.ready && s.mode == RECOVERY_MODE && s.state == RECOVERY && s.reasonCode == "RECOVERY_ACTIVE")
          || (!s.ready && s.mode != UNINITIALIZED_MODE && s.state == REJECTED))
  }

  lemma StatusOkIff(s: Status)
    ensures StatusOk(s) <==> Coherent(s)
  {
  }

  /** A receipt of success or recovery names what was desired as activated, any other a rejection. */
  lemma ReceiptOkIff(r: Receipt)
    ensures ReceiptOk(r) <==>
            && WellFormedDigest(r.desired.digest) && r.desired.sequence >= 1
            && (r.activated.Some? ==> WellFormedDigest(r.activated.value.digest) && r.activated.value.sequence >= 1)
            && (|| (r.result == SUCCESS && r.toState == "ACTIVE" && r.activated == Some(r.desired))
                || (r.result == RECOVERED && r.toState == "RECOVERY" && r.activated == Some(r.desired))
                || ((r.result == REJECTION || r.result == FAILURE) && r.toState == "REJECTED"))
  {
  }

  /** The node names the release. */
  predicate Runs(s: Status, target: Identity) {
    s.activeDigest == Some(target.digest) && s.activeSequence == target.sequence
  }

  // ---------------------------------------------------------------- one deployment

  /** One to a hundred attempts, at most a day. */
  predicate Bounded(c: DeploymentReconciliation.Config) {
    0 < c.maximumAttempts && c.maximumAttempts < 101 && 0 < c.timeoutSeconds && c.timeoutSeconds <= 24 * 60 * 60
  }

  /** A monitor is made exactly of a receipt that says its desired release went into production, and bounds. */
  lemma MonitorIff(r: Receipt, c: DeploymentReconciliation.Config)
    requires c.target == r.desired
    ensures DeploymentReconciliation.Acceptable(r) && DeploymentReconciliation.ConfigOk(c) <==>
            && WellFormedDigest(r.desired.digest) && r.desired.sequence >= 1 && r.activated == Some(r.desired)
            && r.result == SUCCESS && r.toState == "ACTIVE" && Bounded(c)
  {
    ReceiptOkIff(r);
  }

  /** Every verdict of one observation, in the order in which they are tried. */
  function Verdict(c: DeploymentReconciliation.Config, o: DeploymentReconciliation.Observation)
    : (DeploymentReconciliation.State, DeploymentReconciliation.Reason)
    requires o.elapsed.Finite?
  {
    var late, due := o.elapsed.value > c.timeoutSeconds as real, o.elapsed.value == c.timeoutSeconds as real;
    var restarted := o.restartAttempts >= 1 && o.status.Some? && Runs(o.status.value, c.target);
    if late then (DeploymentReconciliation.FAILED, DeploymentReconciliation.RECONCILIATION_TIMEOUT)
    else if o.restartAttempts > c.maximumAttempts
    then (DeploymentReconciliation.FAILED, DeploymentReconciliation.RESTART_ATTEMPTS_EXHAUSTED)
    else if restarted && o.status.value.ready && o.status.value.mode == PRODUCTION
    then (DeploymentReconciliation.VERIFIED, DeploymentReconciliation.TARGET_SERVING_VERIFIED)
    else if restarted then (DeploymentReconciliation.FAILED, DeploymentReconciliation.TARGET_STATUS_REJECTED)
    else if due then (DeploymentReconciliation.FAILED, DeploymentReconciliation.RECONCILIATION_TIMEOUT)
    else if o.restartAttempts == c.maximumAttempts && !o.restartInProgress
    then (DeploymentReconciliation.FAILED, DeploymentReconciliation.RESTART_ATTEMPTS_EXHAUSTED)
    else if o.restartAttempts == 0 then (DeploymentReconciliation.PENDING, DeploymentReconciliation.RESTART_REQUIRED)
    else if o.restartInProgress then (DeploymentReconciliation.RESTARTING, DeploymentReconciliation.RESTART_IN_PROGRESS)
    else (DeploymentReconciliation.RESTARTING, DeploymentReconciliation.AWAITING_TARGET_STATUS)
  }

  /** The figures are not negative, a restart in progress was counted, and the status, if any, is coherent. */
  predicate Usable(o: DeploymentReconciliation.Observation) {
    && o.restartAttempts >= 0 && o.elapsed.Finite? && o.elapsed.value >= 0.0
    && !(o.restartInProgress && o.restartAttempts == 0) && (o.status.Some? ==> Coherent(o.status.value))
  }

  lemma UsableIff(o: DeploymentReconciliation.Observation)
    ensures DeploymentReconciliation.InputOk(o) <==> Usable(o)
  {
    if o.status.Some? {
      StatusOkIff(o.status.value);
    }
  }

  /** An undecided monitor answers every usable observation that does not move back with the verdict on its fields,
      what was seen, and figures cut off at the bounds; it refuses any other. */
  lemma AnswerOnFields(c: DeploymentReconciliation.Config, os: seq<DeploymentReconciliation.Observation>, k: nat)
    requires Bounded(c) && k < |os|
    requires DeploymentReconciliation.After(c, os[..k]).terminal.None?
    ensures var o, m := os[k], DeploymentReconciliation.After(c, os[..k]);
            match DeploymentReconciliation.AnswerAt(c, os, k)
            case Err(InvalidInput) => !Usable(o)
            case Err(MovedBackward) =>
              Usable(o) && (o.restartAttempts < m.lastAttempts || o.elapsed.value < m.lastElapsed)
            case Ok(r) =>
              && Usable(o) && o.restartAttempts >= m.lastAttempts && o.elapsed.value >= m.lastElapsed
              && (r.state, r.reason) == Verdict(c, o) && r.target == c.target
              && r.maximumAttempts == c.maximumAttempts && r.timeoutSeconds == c.timeoutSeconds
              && r.restartAttempts == (if o.restartAttempts < c.maximumAttempts then o.restartAttempts else c.maximumAttempts)
              && r.elapsedSeconds == (if o.elapsed.value.Floor < c.timeoutSeconds then o.elapsed.value.Floor else c.timeoutSeconds)
              && (if o.status.None? then r.observedDigest == None && r.observedSequence == None
                  else r.observedDigest == o.status.value.activeDigest && r.observedSequence == Some(o.status.value.activeSequence))
  {
    UsableIff(os[k]);
  }

  // ---------------------------------------------------------------- the fleet

  /** Letters, digits, and after the first character also dots, underscores, colons and dashes. */
  predicate NodeName(n: string) {
    && 0 < |n| && |n| < 129
    && forall i :: 0 <= i < |n| ==>
         || 'a' <= n[i] <= 'z' || 'A' <= n[i] <= 'Z' || '0' <= n[i] <= '9'
         || (i > 0 && (n[i] == '.' || n[i] == '_' || n[i] == ':' || n[i] == '-'))
  }

  /** A named node, a coherent status if any, and a receipt of success, not served live, if any. */
  predicate Presentable(o: NodeObservation) {
    && NodeName(o.nodeId) && (o.activation.Some? ==> Coherent(o.activation.value))
    && (o.accepted.Some? ==>
          && (var r := o.accepted.value.receipt;
              && WellFormedDigest(r.desired.digest) && r.desired.sequence >= 1 && r.activated == Some(r.desired)
              && r.result == SUCCESS && r.toState == "ACTIVE")
          && o.accepted.value.restartRequired && !o.accepted.value.liveReload)
  }

  lemma PresentableIff(o: NodeObservation)
    ensures ObservationOk(o) <==> Presentable(o)
  {
    if o.activation.Some? {
      StatusOkIff(o.activation.value);
    }
    if o.accepted.Some? {
      ReceiptOkIff(o.accepted.value.receipt);
    }
  }

  /** A fleet is reported on exactly when it has at most ten thousand nodes, each presentable and named once. */
  lemma EvaluableIff(values: seq<Option<NodeObservation>>)
    ensures Evaluable(values) <==>
            && |values| <= 10_000 && (forall i :: 0 <= i < |values| ==> values[i].Some? && Presentable(values[i].value))
            && forall i, j :: 0 <= i < j < |values| ==> values[i].value.nodeId != values[j].value.nodeId
  {
    forall i | 0 <= i < |values| && values[i].Some? ensures ObservationOk(values[i].value) <==> Presentable(values[i].value) {
      PresentableIff(values[i].value);
    }
  }

  /** The class of a usable observation, on its fields. */
  function Class(desired: Identity, o: NodeObservation): Classification {
    if !o.online || o.activation == None then UNKNOWN
    else if !o.activation.value.ready then UNREADY
    else if o.activation.value.mode == RECOVERY_MODE then IN_RECOVERY
    else if Runs(o.activation.value, desired) then COMPLIANT
    else if o.accepted.Some? && o.accepted.value.receipt.desired == desired then PENDING_RESTART
    else DRIFT
  }

  /** What the node shows: nothing when it is unknown. */
  function Shown(desired: Identity, o: NodeObservation): Node {
    if !o.online || o.activation == None then Node(o.nodeId, UNKNOWN, None, None)
    else Node(o.nodeId, Class(desired, o), o.activation.value.activeDigest,
              if o.activation.value.activeDigest == None then None else Some(o.activation.value.activeSequence))
  }

  lemma ClassIs(desired: Identity, o: NodeObservation)
    requires Presentable(o)
    ensures ClassOf(desired, o) == Class(desired, o) && Classify(desired, o) == Shown(desired, o)
  {
    PresentableIff(o);
    ClassMeans(desired, o);
  }

  /** How many of the nodes have the class. */
  function HowMany(nodes: seq<Node>, c: Classification): nat {
    |Having(nodes, c)|
  }

  /** The places of the nodes that have the class. */
  function Having(nodes: seq<Node>, c: Classification): set<nat> {
    set i | 0 <= i < |nodes| && nodes[i].classification == c
  }

  lemma HavingSnoc(nodes: seq<Node>, n: Node, c: Classification)
    ensures Having(nodes + [n], c) == if n.classification == c then Having(nodes, c) + {|nodes|} else Having(nodes, c)
  {
    forall i: nat | i != |nodes| ensures i in Having(nodes + [n], c) <==> i in Having(nodes, c) {
      assert i < |nodes| ==> (nodes + [n])[i] == nodes[i];
    }
    assert (nodes + [n])[|nodes|] == n;
  }

  lemma HowManySnoc(nodes: seq<Node>, n: Node, c: Classification)
    ensures HowMany(nodes + [n], c) == HowMany(nodes, c) + if n.classification == c then 1 else 0
  {
    HavingSnoc(nodes, n, c);
  }

  lemma {:induction false} CountIs(nodes: seq<Node>, c: Classification)
    ensures Count(nodes, c) == HowMany(nodes, c)
  {
    if nodes != [] {
      var n := |nodes| - 1;
      CountIs(nodes[..n], c);
      HowManySnoc(nodes[..n], nodes[n], c);
      assert nodes == nodes[..n] + [nodes[n]];
    }
  }

  lemma EveryClassIsCounted(c: Classification)
    ensures c in CLASSES
  {
  }

  /** Every class is counted, and the fleet complies when it has nodes and all of them serve the release. */
  lemma CountsOnFields(desired: Identity, os: seq<NodeObservation>)
    requires forall i :: 0 <= i < |os| ==> Presentable(os[i])
    ensures var r := ReportOf(desired, os);
            && (forall c: Classification :: c in r.counts && r.counts[c] == HowMany(r.nodes, c))
            && (r.fleetCompliant <==> os != [] && forall i :: 0 <= i < |os| ==> Class(desired, os[i]) == COMPLIANT)
  {
    var r := ReportOf(desired, os);
    forall c: Classification ensures c in CLASSES && Count(r.nodes, c) == HowMany(r.nodes, c) {
      EveryClassIsCounted(c);
      CountIs(r.nodes, c);
    }
    forall i | 0 <= i < |os| ensures ObservationOk(os[i]) {
      PresentableIff(os[i]);
    }
    FleetCompliantIff(desired, os);
    forall i | 0 <= i < |os| ensures Class(desired, os[i]) == COMPLIANT <==> Serves(desired, os[i]) {
      ClassIs(desired, os[i]);
      ClassMeans(desired, os[i]);
    }
  }

  /** A report has one node for each observation, in order of IDs, with its class and what it shows. */
  lemma ReportOnFields(desired: Identity, os: seq<NodeObservation>)
    requires forall i :: 0 <= i < |os| ==> Presentable(os[i])
    ensures var r := ReportOf(desired, os);
            && r.desired == desired && r.totalNodes == |os| && |r.nodes| == |os|
            && (forall i, j :: 0 <= i < j < |r.nodes| ==> StringLe(r.nodes[i].nodeId, r.nodes[j].nodeId))
            && (forall n :: n in r.nodes ==> exists i :: 0 <= i < |os| && n == Shown(desired, os[i]))
            && (forall i :: 0 <= i < |os| ==> Shown(desired, os[i]) in r.nodes)
  {
    ByNodeIdIsPreorder();
    var nodes := Classified(desired, os);
    SortSorts(nodes, ByNodeId);
    PermutationLength(Sort(nodes, ByNodeId), nodes);
    forall n ensures n in Sort(nodes, ByNodeId) <==> n in nodes {
      PermutationMembers(Sort(nodes, ByNodeId), nodes, n);
    }
    forall i | 0 <= i < |os| ensures nodes[i] == Shown(desired, os[i]) && nodes[i] in nodes {
      ClassIs(desired, os[i]);
    }
  }
}
