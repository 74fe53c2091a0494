/** Classifying live fleet observations against one desired release. */
module FleetCompliance {
  import opened Prelude
  import opened Sorting
  import opened ActivationContracts
  import DeploymentReconciliation

  datatype Classification = COMPLIANT | PENDING_RESTART | IN_RECOVERY | DRIFT | UNREADY | UNKNOWN

  datatype Acceptance = Acceptance(receipt: Receipt, liveReload: bool, restartRequired: bool)

  datatype NodeObservation = NodeObservation(
    nodeId: string, online: bool, activation: Option<Status>, accepted: Option<Acceptance>)

  datatype Node = Node(
    nodeId: string, classification: Classification, observedDigest: Option<string>, observedSequence: Option<int>)

  datatype Report = Report(
    desired: Identity, fleetCompliant: bool, totalNodes: int, counts: map<Classification, int>, nodes: seq<Node>)

  const MAX_FLEET_NODES := 10_000

  const CLASSES: set<Classification> := {COMPLIANT, PENDING_RESTART, IN_RECOVERY, DRIFT, UNREADY, UNKNOWN}

  predicate Alphanumeric(c: char) {
    'a' <= c <= 'z' || 'A' <= c <= 'Z' || '0' <= c <= '9'
  }

  predicate NodeIdOk(n: string) {
    && 1 <= |n| <= 128 && Alphanumeric(n[0])
    && forall i :: 1 <= i < |n| ==> Alphanumeric(n[i]) || n[i] in {'.', '_', ':', '-'}
  }

  predicate ObservationOk(o: NodeObservation) {
    && NodeIdOk(o.nodeId)
    && (o.activation.Some? ==> StatusOk(o.activation.value))
    && (o.accepted.Some? ==>
          && ReceiptOk(o.accepted.value.receipt) && o.accepted.value.receipt.result == SUCCESS
          && !o.accepted.value.liveReload && o.accepted.value.restartRequired)
  }

  predicate ExactAcceptance(desired: Identity, accepted: Option<Acceptance>) {
    && accepted.Some?
    && accepted.value.receipt.desired == desired
    && accepted.value.receipt.activated == Some(desired)
    && !accepted.value.liveReload && accepted.value.restartRequired
  }

  function ClassOf(desired: Identity, o: NodeObservation): Classification {
    if !o.online || o.activation.None? then UNKNOWN
    else
      var s := o.activation.value;
      if !s.ready then UNREADY
      else if s.mode == RECOVERY_MODE || s.state == RECOVERY then IN_RECOVERY
      else if ShowsServed(s, desired) then COMPLIANT
      else if ExactAcceptance(desired, o.accepted) then PENDING_RESTART
      else DRIFT
  }

  function Classify(desired: Identity, o: NodeObservation): Node {
    var c := ClassOf(desired, o);
    if c == UNKNOWN then Node(o.nodeId, c, None, None)
    else Node(o.nodeId, c, o.activation.value.activeDigest,
              if o.activation.value.activeSequence > 0 then Some(o.activation.value.activeSequence) else None)
  }

  // ---------------------------------------------------------------- agreement with the reconciler

  /** The classifier and the reconciler read one status alike: after a restart and in bounds, an online
      node is COMPLIANT exactly when the reconciler verifies the same release, and a target the
      reconciler rejects is UNREADY or in recovery, never drift or a pending restart. */
  lemma AgreesWithReconciler(c: DeploymentReconciliation.Config, o: DeploymentReconciliation.Observation,
                             n: NodeObservation)
    requires DeploymentReconciliation.ConfigOk(c) && DeploymentReconciliation.InputOk(o)
    requires DeploymentReconciliation.InBounds(c, o) && o.restartAttempts >= 1
    requires n.online && n.activation == o.status
    ensures ClassOf(c.target, n) == COMPLIANT <==> DeploymentReconciliation.Judge(c, o).state == DeploymentReconciliation.VERIFIED
    ensures DeploymentReconciliation.Judge(c, o).reason == DeploymentReconciliation.TARGET_STATUS_REJECTED ==>
              ClassOf(c.target, n) in {UNREADY, IN_RECOVERY}
  {
    DeploymentReconciliation.VerdictIff(c, o);
  }

  /** What each class says about a coherent observation. */
  lemma ClassMeans(desired: Identity, o: NodeObservation)
    requires ObservationOk(o)
    ensures ClassOf(desired, o) == COMPLIANT <==> Serves(desired, o)
    ensures ClassOf(desired, o) == PENDING_RESTART <==>
            && o.online && o.activation.Some? && o.activation.value.ready
            && o.activation.value.mode == PRODUCTION && !IsTarget(o.activation.value, desired)
            && o.accepted.Some? && o.accepted.value.receipt.desired == desired
    ensures ClassOf(desired, o) == IN_RECOVERY <==>
            o.online && o.activation.Some? && o.activation.value.ready && o.activation.value.mode == RECOVERY_MODE
    ensures ClassOf(desired, o) == DRIFT <==>
            && o.online && o.activation.Some? && o.activation.value.ready
            && o.activation.value.mode == PRODUCTION && !IsTarget(o.activation.value, desired)
            && (o.accepted.Some? ==> o.accepted.value.receipt.desired != desired)
    ensures ClassOf(desired, o) == UNREADY <==> o.online && o.activation.Some? && !o.activation.value.ready
    ensures ClassOf(desired, o) == UNKNOWN <==> !o.online || o.activation.None?
    ensures var n := Classify(desired, o);
            if n.classification == UNKNOWN then n.observedDigest == None && n.observedSequence == None
            else && n.observedDigest == o.activation.value.activeDigest
                 && (n.observedSequence.Some? <==> n.observedDigest.Some?)
                 && (n.observedSequence.Some? ==> n.observedSequence.value == o.activation.value.activeSequence)
  {
    if o.activation.Some? {
      ShowsServedIff(o.activation.value, desired);
    }
  }

  // ---------------------------------------------------------------- the report

  predicate ByNodeId(a: Node, b: Node) {
    StringLe(a.nodeId, b.nodeId)
  }

  function Classified(desired: Identity, os: seq<NodeObservation>): seq<Node> {
    Map(os, (o: NodeObservation) => Classify(desired, o))
  }

  function Count(nodes: seq<Node>, c: Classification): (n: nat)
    ensures n == 0 <==> forall i :: 0 <= i < |nodes| ==> nodes[i].classification != c
    ensures n <= |nodes|
    ensures n == |nodes| <==> forall i :: 0 <= i < |nodes| ==> nodes[i].classification == c
  {
    if nodes == [] then 0
    else Count(nodes[..|nodes| - 1], c) + if nodes[|nodes| - 1].classification == c then 1 else 0
  }

  function ReportOf(desired: Identity, os: seq<NodeObservation>): Report {
    var nodes := Sort(Classified(desired, os), ByNodeId);
    Report(desired, nodes != [] && Count(nodes, COMPLIANT) == |nodes|, |nodes|,
           map c | c in CLASSES :: Count(nodes, c), nodes)
  }

  ghost predicate Evaluable(values: seq<Option<NodeObservation>>) {
    && |values| <= MAX_FLEET_NODES
    && (forall i :: 0 <= i < |values| ==> values[i].Some? && ObservationOk(values[i].value))
    && forall i, j :: 0 <= i < j < |values| ==> values[i].value.nodeId != values[j].value.nodeId
  }

  class DesiredReleaseCompliancePolicy {
    const desired: Identity

    constructor (desired: Identity)
      requires IdentityOk(desired)
      ensures this.desired == desired
    {
      this.desired := desired;
    }

    /** `None` among the values is something that is no observation at all. */
    method Evaluate(values: seq<Option<NodeObservation>>) returns (report: Option<Report>)
      ensures report.Some? <==> Evaluable(values)
      ensures report.Some? ==> report.value == ReportOf(desired, Values(values))
    {
      var validated := Validate(values);
      return if validated.Some? then Some(ReportOf(desired, validated.value)) else None;
    }

    method Validate(values: seq<Option<NodeObservation>>) returns (result: Option<seq<NodeObservation>>)
      ensures result.Some? <==> Evaluable(values)
      ensures result.Some? ==> result.value == Values(values)
    {
      var validated: seq<NodeObservation> := [];
      var seen: set<string> := {};
      for i := 0 to |values|
        invariant |validated| == i <= MAX_FLEET_NODES
        invariant forall j :: 0 <= j < i ==> values[j] == Some(validated[j]) && ObservationOk(validated[j])
        invariant forall n :: n in seen <==> exists j :: 0 <= j < i && validated[j].nodeId == n
        invariant forall j, k :: 0 <= j < k < i ==> validated[j].nodeId != validated[k].nodeId
      {
        if |validated| >= MAX_FLEET_NODES || values[i].None? || !ObservationOk(values[i].value)
           || values[i].value.nodeId in seen {
          return None;
        }
        seen := seen + {values[i].value.nodeId};
        validated := validated + [values[i].value];
      }
      return Some(validated);
    }
  }

  function Values(values: seq<Option<NodeObservation>>): (r: seq<NodeObservation>)
    requires forall i :: 0 <= i < |values| ==> values[i].Some?
    ensures |r| == |values| && forall i :: 0 <= i < |r| ==> r[i] == values[i].value
  {
    seq(|values|, i requires 0 <= i < |values| => values[i].value)
  }

  lemma ByNodeIdIsPreorder()
    ensures Preorder(ByNodeId)
  {
    forall x, y ensures ByNodeId(x, y) || ByNodeId(y, x) {
      StringLeTotal(x.nodeId, y.nodeId);
    }
    forall x, y, z | ByNodeId(x, y) && ByNodeId(y, z) ensures ByNodeId(x, z) {
      StringLeTransitive(x.nodeId, y.nodeId, z.nodeId);
    }
  }

  ghost predicate DistinctNodes(os: seq<NodeObservation>) {
    forall i, j :: 0 <= i < j < |os| ==> os[i].nodeId != os[j].nodeId
  }

  lemma ClassifiedHasNoTies(desired: Identity, os: seq<NodeObservation>)
    requires DistinctNodes(os)
    ensures NoTies(Classified(desired, os), ByNodeId)
  {
    var f := (o: NodeObservation) => Classify(desired, o);
    var nodes := Classified(desired, os);
    forall x, y | x in nodes && y in nodes && ByNodeId(x, y) && ByNodeId(y, x) ensures x == y {
      StringLeTotal(x.nodeId, y.nodeId);
      var i :| 0 <= i < |nodes| && nodes[i] == x;
      var j :| 0 <= j < |nodes| && nodes[j] == y;
      assert nodes[i] == f(os[i]) && nodes[j] == f(os[j]);
    }
  }

  /** The report does not depend on the order in which observations arrive. */
  lemma ReportForgetsOrder(desired: Identity, a: seq<NodeObservation>, b: seq<NodeObservation>)
    requires DistinctNodes(a) && Permutation(a, b)
    ensures ReportOf(desired, a) == ReportOf(desired, b)
  {
    var f := (o: NodeObservation) => Classify(desired, o);
    MapPermutes(a, b, f);
    ClassifiedHasNoTies(desired, a);
    ByNodeIdIsPreorder();
    SortForgetsOrder(Classified(desired, a), Classified(desired, b), ByNodeId);
  }

  lemma SortedNodes(nodes: seq<Node>)
    ensures |Sort(nodes, ByNodeId)| == |nodes|
    ensures forall n :: n in Sort(nodes, ByNodeId) <==> n in nodes
  {
    ByNodeIdIsPreorder();
    SortSorts(nodes, ByNodeId);
    PermutationLength(Sort(nodes, ByNodeId), nodes);
    forall n ensures n in Sort(nodes, ByNodeId) <==> n in nodes {
      PermutationMembers(Sort(nodes, ByNodeId), nodes, n);
    }
  }

  lemma CountAllIff(nodes: seq<Node>, c: Classification)
    ensures Count(nodes, c) == |nodes| <==> forall n :: n in nodes ==> n.classification == c
  {
    if forall n :: n in nodes ==> n.classification == c {
      assert forall i :: 0 <= i < |nodes| ==> nodes[i] in nodes;
    }
  }

  lemma ClassifiedMembers(desired: Identity, os: seq<NodeObservation>)
    ensures |Classified(desired, os)| == |os|
    ensures (forall n :: n in Classified(desired, os) ==> n.classification == COMPLIANT) <==>
            forall i :: 0 <= i < |os| ==> ClassOf(desired, os[i]) == COMPLIANT
  {
    var f := (o: NodeObservation) => Classify(desired, o);
    var nodes := Classified(desired, os);
    if forall n :: n in nodes ==> n.classification == COMPLIANT {
      forall i | 0 <= i < |os| ensures ClassOf(desired, os[i]) == COMPLIANT {
        assert nodes[i] == f(os[i]) && nodes[i] in nodes;
      }
    }
    if forall i :: 0 <= i < |os| ==> ClassOf(desired, os[i]) == COMPLIANT {
      assert forall i :: 0 <= i < |nodes| ==> nodes[i] == f(os[i]);
    }
  }

  /** The node is online and ready, and serves the desired release in production. */
  predicate Serves(desired: Identity, o: NodeObservation) {
    && o.online && o.activation.Some? && o.activation.value.ready
    && o.activation.value.mode == PRODUCTION && IsTarget(o.activation.value, desired)
  }

  /** The fleet is compliant exactly when it is not empty and every observed node serves the desired
      release, ready and in production. */
  lemma FleetCompliantIff(desired: Identity, os: seq<NodeObservation>)
    requires forall i :: 0 <= i < |os| ==> ObservationOk(os[i])
    ensures ReportOf(desired, os).fleetCompliant <==> os != [] && forall i :: 0 <= i < |os| ==> Serves(desired, os[i])
    ensures ReportOf(desired, os).totalNodes == |os|
  {
    forall i | 0 <= i < |os| ensures ClassOf(desired, os[i]) == COMPLIANT <==> Serves(desired, os[i]) {
      ClassMeans(desired, os[i]);
    }
    ClassifiedMembers(desired, os);
    SortedNodes(Classified(desired, os));
    CountAllIff(Sort(Classified(desired, os), ByNodeId), COMPLIANT);
  }

  /** Every node is counted in exactly one class. */
  lemma {:induction false} CountsAddUp(nodes: seq<Node>)
    ensures Count(nodes, COMPLIANT) + Count(nodes, PENDING_RESTART) + Count(nodes, IN_RECOVERY)
            + Count(nodes, DRIFT) + Count(nodes, UNREADY) + Count(nodes, UNKNOWN) == |nodes|
  {
    if nodes != [] {
      CountsAddUp(nodes[..|nodes| - 1]);
    }
  }
}
