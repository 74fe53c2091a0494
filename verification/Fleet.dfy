/**
 Fleet control messages: a node reserves a durable sequence before each signature, and the controller
 keeps a durable high-water mark for each node. The network may drop, duplicate, reorder and invent
 messages; both sides may stop at any point and start again.
 */
module Fleet {
  import opened Prelude
  import opened Identifiers
  import opened Crypto

  /** What `canonical_fleet_message` puts into bytes. */
  datatype Envelope = Envelope(
    kind: string, nodeId: string, keyId: string, issuedAt: int, sequence: int, payload: Payload)

  /** A payload whose `node_id` may be absent or not a string. */
  datatype Payload = Payload(nodeId: Option<string>, fields: nat)

  /** A proof as received: a field that is absent or of the wrong type is `None`. */
  datatype Proof = Proof(
    keyId: Option<string>, issuedAt: Option<int>, sequence: Option<int>, signature: Option<Signature<Envelope>>)

  datatype Message = Message(kind: string, payload: Payload, proof: Proof)

  datatype Enrollment = Enrollment(keyId: string, key: PublicKey, enabled: bool)

  type Registry = map<string, Enrollment>

  datatype FleetError = BadField | OutsideWindow | BadRegistry | NotEnrolled | WrongKey | Disabled | BadSignature | Stale

  const KINDS: set<string> := {"registration", "heartbeat"}

  predicate RegistryOk(r: Registry) {
    && 1 <= |r| <= 10_000
    && forall n :: n in r ==> WellFormedId(n) && WellFormedId(r[n].keyId)
  }

  /** All fields of the message are present. */
  predicate FieldsOk(m: Message) {
    && m.payload.nodeId.Some? && m.payload.nodeId.value != ""
    && m.proof.keyId.Some? && m.proof.keyId.value != ""
    && m.proof.issuedAt.Some?
    && m.proof.sequence.Some? && m.proof.sequence.value >= 1
    && m.proof.signature.Some?
  }

  /** The envelope the message claims to be a signature of. */
  function Claimed(m: Message): Envelope
    requires FieldsOk(m)
  {
    Envelope(m.kind, m.payload.nodeId.value, m.proof.keyId.value, m.proof.issuedAt.value,
             m.proof.sequence.value, m.payload)
  }

  /** Inside the clock window and signed with the key of an enabled enrollment. */
  predicate Authentic(registry: Option<Registry>, skew: int, m: Message, now: int) {
    && FieldsOk(m)
    && Abs(now - m.proof.issuedAt.value) <= skew
    && registry.Some? && RegistryOk(registry.value) && Enrolled(registry.value, m)
    && Verifies(registry.value[m.payload.nodeId.value].key, Claimed(m), m.proof.signature.value)
  }

  /** The node has an enabled enrollment under the key ID of the proof. */
  predicate Enrolled(registry: Registry, m: Message)
    requires FieldsOk(m)
  {
    && m.payload.nodeId.value in registry
    && registry[m.payload.nodeId.value].keyId == m.proof.keyId.value && registry[m.payload.nodeId.value].enabled
  }

  predicate Fresh(marks: map<string, int>, node: string, sequence: int) {
    node in marks ==> marks[node] < sequence
  }

  function NextSequence(last: Option<int>): int {
    last.GetOr(0) + 1
  }

  // ---------------------------------------------------------------- the two stores and their users

  class FleetSequenceStore {
    var last: Option<int>

    constructor ()
      ensures last == None
    {
      last := None;
    }

    method ReserveNext() returns (value: int)
      modifies this
      ensures value == NextSequence(old(last)) && last == Some(value)
    {
      value := if last.None? then 1 else last.value + 1;
      last := Some(value);
    }
  }

  class FleetMessageSigner {
    const nodeId: string
    const keyId: string
    const store: FleetSequenceStore

    constructor (nodeId: string, keyId: string, store: FleetSequenceStore)
      ensures this.nodeId == nodeId && this.keyId == keyId && this.store == store
    {
      this.nodeId, this.keyId, this.store := nodeId, keyId, store;
    }

    /** A request refused for its contents reserves nothing; a missing private key costs a sequence. */
    method Sign(kind: string, payload: Payload, timestamp: int, privateKey: Option<PublicKey>)
      returns (proof: Option<Proof>)
      modifies store
      ensures kind !in KINDS || payload.nodeId != Some(nodeId) ==> proof == None && store.last == old(store.last)
      ensures kind in KINDS && payload.nodeId == Some(nodeId) ==>
                && store.last == Some(NextSequence(old(store.last)))
                && proof.Some? == privateKey.Some?
      ensures proof.Some? ==>
                proof.value == Proof(Some(keyId), Some(timestamp), store.last,
                  Some(SignedBy(privateKey.value,
                                Envelope(kind, nodeId, keyId, timestamp, NextSequence(old(store.last)), payload))))
    {
      if kind !in KINDS || payload.nodeId != Some(nodeId) {
        return None;
      }
      var sequence := store.ReserveNext();
      if privateKey.None? {
        return None;
      }
      var signature := SignedBy(privateKey.value, Envelope(kind, nodeId, keyId, timestamp, sequence, payload));
      return Some(Proof(Some(keyId), Some(timestamp), Some(sequence), Some(signature)));
    }
  }

  class FleetReplayStore {
    var marks: map<string, int>

    constructor ()
      ensures marks == map[]
    {
      marks := map[];
    }

    method Advance(nodeId: string, sequence: int) returns (ok: bool)
      modifies this
      ensures ok == Fresh(old(marks), nodeId, sequence)
      ensures marks == if ok then old(marks)[nodeId := sequence] else old(marks)
    {
      if nodeId in marks && sequence <= marks[nodeId] {
        return false;
      }
      marks := marks[nodeId := sequence];
      return true;
    }
  }

  class FleetAuthenticator {
    const skew: int
    const replay: FleetReplayStore

    constructor (replay: FleetReplayStore, skew: int)
      requires skew >= 1
      ensures this.replay == replay && this.skew == skew
    {
      this.replay, this.skew := replay, skew;
    }

    /** `registry` is what the registry file holds at this moment, `None` when it cannot be read. */
    method Verify(registry: Option<Registry>, m: Message, now: int) returns (result: Result<int, FleetError>)
      modifies replay
      ensures result.Ok? <==> Authentic(registry, skew, m, now)
                              && Fresh(old(replay.marks), m.payload.nodeId.value, m.proof.sequence.value)
      ensures result == Err(Stale) <==> Authentic(registry, skew, m, now) && result.Err?
      ensures result == Err(BadField) <==> !FieldsOk(m)
      ensures result == Err(OutsideWindow) <==> FieldsOk(m) && Abs(now - m.proof.issuedAt.value) > skew
      ensures result == Err(BadSignature) <==>
              && FieldsOk(m) && Abs(now - m.proof.issuedAt.value) <= skew && registry.Some? && RegistryOk(registry.value)
              && Enrolled(registry.value, m)
              && !Verifies(registry.value[m.payload.nodeId.value].key, Claimed(m), m.proof.signature.value)
      ensures result.Ok? ==> replay.marks == old(replay.marks)[m.payload.nodeId.value := result.value]
                             && m.proof.sequence == Some(result.value)
      ensures result.Err? ==> replay.marks == old(replay.marks)
    {
      if !FieldsOk(m) {
        return Err(BadField);
      }
      if Abs(now - m.proof.issuedAt.value) > skew {
        return Err(OutsideWindow);
      }
      if registry.None? || !RegistryOk(registry.value) {
        return Err(BadRegistry);
      }
      var nodeId := m.payload.nodeId.value;
      if nodeId !in registry.value {
        return Err(NotEnrolled);
      }
      var enrollment := registry.value[nodeId];
      if enrollment.keyId != m.proof.keyId.value {
        return Err(WrongKey);
      }
      if !enrollment.enabled {
        return Err(Disabled);
      }
      if !Verifies(enrollment.key, Claimed(m), m.proof.signature.value) {
        return Err(BadSignature);
      }
      var advanced := replay.Advance(nodeId, m.proof.sequence.value);
      return if advanced then Ok(m.proof.sequence.value) else Err(Stale);
    }
  }

  // ---------------------------------------------------------------- the network

  datatype Signed = Signed(key: PublicKey, envelope: Envelope)

  datatype Acceptance = Acceptance(node: string, sequence: int, signed: Signed)

  /** `last` and `marks` are durable. `reserved` holds what the workers of a node have reserved and not
      yet signed, and is lost when the node stops. `signed` and `accepted` are the history. */
  datatype World = World(
    last: map<string, int>, reserved: map<(string, nat), int>, signed: seq<Signed>,
    marks: map<string, int>, accepted: seq<Acceptance>)

  const START := World(map[], map[], [], map[], [])

  /** Several workers of one node may sign at once: reserving and signing are separate steps. */
  datatype Event =
    | Reserve(node: string, worker: nat)
    | Sign(node: string, worker: nat, key: PublicKey, kind: string, keyId: string, issuedAt: int, payload: Payload)
    | StopNode(node: string)
    | Deliver(registry: Option<Registry>, message: Message, now: int)

  /** `owner` says which node holds each key; a key outside it is the adversary's. */
  datatype Setting = Setting(owner: map<PublicKey, string>, skew: int)

  function LastOf(w: World, node: string): Option<int> {
    if node in w.last then Some(w.last[node]) else None
  }

  predicate Accepts(c: Setting, w: World, e: Event) {
    && e.Deliver?
    && Authentic(e.registry, c.skew, e.message, e.now)
    && Fresh(w.marks, e.message.payload.nodeId.value, e.message.proof.sequence.value)
  }

  function AcceptanceOf(c: Setting, e: Event): Acceptance
    requires e.Deliver? && Authentic(e.registry, c.skew, e.message, e.now)
  {
    var m := e.message;
    Acceptance(m.payload.nodeId.value, m.proof.sequence.value,
               Signed(e.registry.value[m.payload.nodeId.value].key, Claimed(m)))
  }

  function Step(c: Setting, w: World, e: Event): World {
    match e
    case Reserve(node, worker) =>
      var value := NextSequence(LastOf(w, node));
      w.(last := w.last[node := value], reserved := w.reserved[(node, worker) := value])
    case Sign(node, worker, key, kind, keyId, issuedAt, payload) =>
      if (node, worker) !in w.reserved then w
      else
        w.(reserved := w.reserved - {(node, worker)},
           signed := w.signed
                     + [Signed(key, Envelope(kind, node, keyId, issuedAt, w.reserved[(node, worker)], payload))])
    case StopNode(node) =>
      w.(reserved := map p | p in w.reserved && p.0 != node :: w.reserved[p])
    case Deliver(_, m, _) =>
      if Accepts(c, w, e) then
        w.(marks := w.marks[m.payload.nodeId.value := m.proof.sequence.value],
           accepted := w.accepted + [AcceptanceOf(c, e)])
      else w
  }

  /** A node signs with its own keys, and nobody can make a signature under a node's key: what is
      delivered under such a key was signed before. */
  ghost predicate Possible(c: Setting, w: World, e: Event) {
    match e
    case Sign(node, _, key, _, _, _, _) => key in c.owner && c.owner[key] == node
    case Deliver(_, m, _) =>
      m.proof.signature.Some? && m.proof.signature.value.SignedBy? && m.proof.signature.value.key in c.owner ==>
        Signed(m.proof.signature.value.key, m.proof.signature.value.message) in w.signed
    case _ => true
  }

  function Run(c: Setting, es: seq<Event>): World
    decreases |es|
  {
    if es == [] then START else Step(c, Run(c, es[..|es| - 1]), es[|es| - 1])
  }

  ghost predicate PossibleRun(c: Setting, es: seq<Event>)
    decreases |es|
  {
    es == [] ||
    (PossibleRun(c, es[..|es| - 1]) && Possible(c, Run(c, es[..|es| - 1]), es[|es| - 1]))
  }

  // ---------------------------------------------------------------- invariants

  predicate SignedBelow(w: World) {
    forall i :: 0 <= i < |w.signed| ==>
      w.signed[i].envelope.nodeId in w.last && 1 <= w.signed[i].envelope.sequence <= w.last[w.signed[i].envelope.nodeId]
  }

  predicate ReservedBelow(w: World) {
    && (forall n :: n in w.last ==> w.last[n] >= 1)
    && forall p :: p in w.reserved ==> p.0 in w.last && 1 <= w.reserved[p] <= w.last[p.0]
  }

  predicate SameSlot(a: Envelope, b: Envelope) {
    a.nodeId == b.nodeId && a.sequence == b.sequence
  }

  /** A reserved sequence is held once and has not been signed. */
  predicate ReservedOnce(w: World) {
    && (forall p, q :: p in w.reserved && q in w.reserved && p.0 == q.0 && p != q ==> w.reserved[p] != w.reserved[q])
    && forall p, i :: p in w.reserved && 0 <= i < |w.signed| && w.signed[i].envelope.nodeId == p.0 ==>
         w.signed[i].envelope.sequence != w.reserved[p]
  }

  predicate SignedOnce(w: World) {
    forall i, j :: 0 <= i < j < |w.signed| ==> !SameSlot(w.signed[i].envelope, w.signed[j].envelope)
  }

  predicate KeysOwned(c: Setting, w: World) {
    forall i :: 0 <= i < |w.signed| ==>
      w.signed[i].key in c.owner && c.owner[w.signed[i].key] == w.signed[i].envelope.nodeId
  }

  ghost predicate SenderInv(c: Setting, w: World) {
    SignedBelow(w) && ReservedBelow(w) && ReservedOnce(w) && SignedOnce(w) && KeysOwned(c, w)
  }

  /** Accepted sequences of one node increase, and its mark is the last of them. */
  predicate ReceiverInv(w: World) {
    && (forall i :: 0 <= i < |w.accepted| ==>
          w.accepted[i].node in w.marks && w.accepted[i].sequence <= w.marks[w.accepted[i].node])
    && (forall n :: n in w.marks ==> Marked(w, n))
    && forall i, j :: 0 <= i < j < |w.accepted| && w.accepted[i].node == w.accepted[j].node ==>
         w.accepted[i].sequence < w.accepted[j].sequence
  }

  /** The mark of the node is the sequence of something accepted from it. */
  predicate Marked(w: World, node: string)
    requires node in w.marks
  {
    exists i :: 0 <= i < |w.accepted| && At(w.accepted[i], node, w.marks[node])
  }

  predicate At(a: Acceptance, node: string, sequence: int) {
    a.node == node && a.sequence == sequence
  }

  /** An acceptance under a node's key is of a message that node signed, about itself. */
  predicate AcceptedWereSigned(c: Setting, w: World) {
    forall i :: 0 <= i < |w.accepted| ==>
      && w.accepted[i].signed.envelope.nodeId == w.accepted[i].node
      && w.accepted[i].signed.envelope.sequence == w.accepted[i].sequence
      && (w.accepted[i].signed.key in c.owner ==> w.accepted[i].signed in w.signed)
  }

  /** A reservation takes a sequence above every one in use. */
  ghost predicate Reserves(w: World, after: World, node: string, worker: nat) {
    var value := NextSequence(LastOf(w, node));
    after == w.(last := w.last[node := value], reserved := w.reserved[(node, worker) := value])
  }

  lemma ReserveKeepsBelow(w: World, after: World, node: string, worker: nat)
    requires SignedBelow(w) && ReservedBelow(w) && Reserves(w, after, node, worker)
    ensures SignedBelow(after) && ReservedBelow(after)
  {
  }

  lemma ReservedDiffer(w: World, after: World, node: string, worker: nat, p: (string, nat), q: (string, nat))
    requires ReservedBelow(w) && ReservedOnce(w) && Reserves(w, after, node, worker)
    requires p in after.reserved && q in after.reserved && p.0 == q.0 && p != q
    ensures after.reserved[p] != after.reserved[q]
  {
    assert p == (node, worker) || p in w.reserved;
    assert q == (node, worker) || q in w.reserved;
  }

  lemma ReservedUnsigned(w: World, after: World, node: string, worker: nat, p: (string, nat), i: nat)
    requires SignedBelow(w) && ReservedOnce(w) && Reserves(w, after, node, worker)
    requires p in after.reserved && i < |after.signed| && after.signed[i].envelope.nodeId == p.0
    ensures after.signed[i].envelope.sequence != after.reserved[p]
  {
    assert p == (node, worker) || p in w.reserved;
    assert after.signed[i] == w.signed[i];
  }

  lemma ReserveKeepsOnce(w: World, after: World, node: string, worker: nat)
    requires SignedBelow(w) && ReservedBelow(w) && ReservedOnce(w) && Reserves(w, after, node, worker)
    ensures ReservedOnce(after)
  {
    forall p, q | p in after.reserved && q in after.reserved && p.0 == q.0 && p != q
      ensures after.reserved[p] != after.reserved[q]
    {
      ReservedDiffer(w, after, node, worker, p, q);
    }
    forall p, i | p in after.reserved && 0 <= i < |after.signed| && after.signed[i].envelope.nodeId == p.0
      ensures after.signed[i].envelope.sequence != after.reserved[p]
    {
      ReservedUnsigned(w, after, node, worker, p, i);
    }
  }

  lemma SameSignedKeepsInv(c: Setting, w: World, after: World)
    requires SignedOnce(w) && KeysOwned(c, w) && after.signed == w.signed
    ensures SignedOnce(after) && KeysOwned(c, after)
  {
  }

  lemma ReserveKeepsInv(c: Setting, w: World, e: Event)
    requires SenderInv(c, w) && e.Reserve?
    ensures SenderInv(c, Step(c, w, e))
  {
    var after := Step(c, w, e);
    ReserveKeepsBelow(w, after, e.node, e.worker);
    ReserveKeepsOnce(w, after, e.node, e.worker);
    SameSignedKeepsInv(c, w, after);
  }

  lemma SignKeepsInv(c: Setting, w: World, e: Event)
    requires SenderInv(c, w) && e.Sign? && Possible(c, w, e)
    ensures SenderInv(c, Step(c, w, e))
  {
    var p := (e.node, e.worker);
    if p in w.reserved {
      var after := Step(c, w, e);
      assert after.signed[|w.signed|].envelope.sequence == w.reserved[p];
      assert forall i :: 0 <= i < |w.signed| ==> after.signed[i] == w.signed[i];
      assert SignedOnce(after);
      assert ReservedOnce(after);
    }
  }

  lemma SenderStep(c: Setting, w: World, e: Event)
    requires SenderInv(c, w) && Possible(c, w, e)
    ensures SenderInv(c, Step(c, w, e))
  {
    match e
    case Reserve(_, _) => ReserveKeepsInv(c, w, e);
    case Sign(_, _, _, _, _, _, _) => SignKeepsInv(c, w, e);
    case StopNode(_) =>
    case Deliver(_, _, _) =>
      var after := Step(c, w, e);
      assert after.signed == w.signed && after.last == w.last && after.reserved == w.reserved;
  }

  lemma AcceptanceKeepsMarks(w: World, after: World, a: Acceptance)
    requires forall n :: n in w.marks ==> Marked(w, n)
    requires after.marks == w.marks[a.node := a.sequence] && after.accepted == w.accepted + [a]
    ensures forall n :: n in after.marks ==> Marked(after, n)
  {
    assert after.accepted[|w.accepted|] == a && At(a, a.node, after.marks[a.node]);
    assert Marked(after, a.node);
    forall n | n in w.marks && n != a.node
      ensures Marked(after, n)
    {
      assert Marked(w, n);
      var i :| 0 <= i < |w.accepted| && At(w.accepted[i], n, w.marks[n]);
      assert At(after.accepted[i], n, after.marks[n]);
    }
  }

  lemma AcceptanceKeepsInv(w: World, after: World, a: Acceptance)
    requires ReceiverInv(w) && Fresh(w.marks, a.node, a.sequence)
    requires after.marks == w.marks[a.node := a.sequence] && after.accepted == w.accepted + [a]
    ensures ReceiverInv(after)
  {
    AcceptanceKeepsMarks(w, after, a);
    assert forall i :: 0 <= i < |after.accepted| ==> after.accepted[i] == if i < |w.accepted| then w.accepted[i] else a;
  }

  lemma ReceiverStep(c: Setting, w: World, e: Event)
    requires ReceiverInv(w)
    ensures ReceiverInv(Step(c, w, e))
  {
    var after := Step(c, w, e);
    if Accepts(c, w, e) {
      AcceptanceKeepsInv(w, after, AcceptanceOf(c, e));
    } else {
      assert after.marks == w.marks && after.accepted == w.accepted;
    }
  }

  lemma AuthenticityStep(c: Setting, w: World, e: Event)
    requires AcceptedWereSigned(c, w) && Possible(c, w, e)
    ensures AcceptedWereSigned(c, Step(c, w, e))
  {
  }

  lemma {:induction false} RunKeepsInv(c: Setting, es: seq<Event>)
    requires PossibleRun(c, es)
    ensures SenderInv(c, Run(c, es)) && ReceiverInv(Run(c, es)) && AcceptedWereSigned(c, Run(c, es))
    decreases |es|
  {
    if es != [] {
      var before, e := es[..|es| - 1], es[|es| - 1];
      RunKeepsInv(c, before);
      SenderStep(c, Run(c, before), e);
      ReceiverStep(c, Run(c, before), e);
      AuthenticityStep(c, Run(c, before), e);
    }
  }

  // ---------------------------------------------------------------- theorems over runs

  /** No node ever signs two messages with one sequence. */
  lemma SequencesAreNotReused(c: Setting, es: seq<Event>, i: nat, j: nat)
    requires PossibleRun(c, es) && i < j < |Run(c, es).signed|
    requires Run(c, es).signed[i].envelope.nodeId == Run(c, es).signed[j].envelope.nodeId
    ensures Run(c, es).signed[i].envelope.sequence != Run(c, es).signed[j].envelope.sequence
  {
    RunKeepsInv(c, es);
  }

  /** Accepted sequences of one node strictly increase. */
  lemma AcceptedSequencesIncrease(c: Setting, es: seq<Event>, i: nat, j: nat)
    requires PossibleRun(c, es) && i < j < |Run(c, es).accepted|
    requires Run(c, es).accepted[i].node == Run(c, es).accepted[j].node
    ensures Run(c, es).accepted[i].sequence < Run(c, es).accepted[j].sequence
  {
    RunKeepsInv(c, es);
  }

  /** What is accepted in the name of a node that keeps its key was signed by that node, about itself,
      and each signature is accepted at most once. */
  lemma AcceptedOnceAndAuthentic(c: Setting, es: seq<Event>, w: World, i: nat)
    requires PossibleRun(c, es) && w == Run(c, es) && i < |w.accepted| && w.accepted[i].signed.key in c.owner
    ensures w.accepted[i].signed in w.signed && c.owner[w.accepted[i].signed.key] == w.accepted[i].node
    ensures forall j :: 0 <= j < |w.accepted| && w.accepted[j].signed == w.accepted[i].signed ==> j == i
  {
    RunKeepsInv(c, es);
    var k :| 0 <= k < |w.signed| && w.signed[k] == w.accepted[i].signed;
    assert c.owner[w.signed[k].key] == w.signed[k].envelope.nodeId;
    forall j | 0 <= j < |w.accepted| && w.accepted[j].signed == w.accepted[i].signed
      ensures j == i
    {
      assert w.accepted[j].node == w.accepted[i].node;
      assert w.accepted[j].sequence == w.accepted[i].sequence;
    }
  }

  ghost predicate Delivers(c: Setting, e: Event, node: string) {
    e.Deliver? && Authentic(e.registry, c.skew, e.message, e.now) && e.message.payload.nodeId == Some(node)
  }

  function SequenceIn(e: Event): int
    requires e.Deliver? && e.message.proof.sequence.Some?
  {
    e.message.proof.sequence.value
  }

  lemma NewAcceptance(c: Setting, w: World, e: Event, a: nat)
    requires a < |Step(c, w, e).accepted|
    ensures a < |w.accepted| ==> Step(c, w, e).accepted[a] == w.accepted[a]
    ensures a >= |w.accepted| ==>
              Delivers(c, e, Step(c, w, e).accepted[a].node) && SequenceIn(e) == Step(c, w, e).accepted[a].sequence
  {
  }

  /** Every acceptance comes from one of the authentic deliveries of the run. */
  lemma {:induction false} AcceptedWasDelivered(c: Setting, es: seq<Event>, a: nat) returns (i: nat)
    requires a < |Run(c, es).accepted|
    ensures i < |es| && Delivers(c, es[i], Run(c, es).accepted[a].node)
    ensures SequenceIn(es[i]) == Run(c, es).accepted[a].sequence
    decreases |es|
  {
    var before := es[..|es| - 1];
    i := |es| - 1;
    NewAcceptance(c, Run(c, before), es[i], a);
    if a < |Run(c, before).accepted| {
      i := AcceptedWasDelivered(c, before, a);
    }
  }

  lemma FreshIff(w: World, node: string, sequence: int)
    requires ReceiverInv(w)
    ensures Fresh(w.marks, node, sequence) <==>
            forall i :: 0 <= i < |w.accepted| && w.accepted[i].node == node ==> w.accepted[i].sequence < sequence
  {
    if node in w.marks {
      assert Marked(w, node);
      var i :| 0 <= i < |w.accepted| && At(w.accepted[i], node, w.marks[node]);
      assert w.accepted[i].node == node && w.accepted[i].sequence == w.marks[node];
    }
  }

  /** An authentic message is accepted if and only if every message of its node accepted before has a
      lower sequence. */
  lemma AcceptedIff(c: Setting, es: seq<Event>, w: World, e: Event)
    requires PossibleRun(c, es) && w == Run(c, es)
    requires e.Deliver? && Authentic(e.registry, c.skew, e.message, e.now)
    ensures Accepts(c, w, e) <==>
            forall i :: 0 <= i < |w.accepted| && Some(w.accepted[i].node) == e.message.payload.nodeId ==>
              w.accepted[i].sequence < SequenceIn(e)
  {
    RunKeepsInv(c, es);
    FreshIff(w, e.message.payload.nodeId.value, SequenceIn(e));
  }

  /** What a node signs is authentic wherever its key is enrolled and enabled, inside the clock window. */
  lemma SignedIsAuthentic(registry: Registry, skew: int, m: Message, key: PublicKey, now: int)
    requires FieldsOk(m) && m.proof.signature == Some(SignedBy(key, Claimed(m)))
    ensures Authentic(Some(registry), skew, m, now) <==>
            && RegistryOk(registry)
            && m.payload.nodeId.value in registry
            && registry[m.payload.nodeId.value] == Enrollment(m.proof.keyId.value, key, true)
            && m.proof.issuedAt.value - skew <= now <= m.proof.issuedAt.value + skew
  {
  }

  /** The authentic deliveries of `node` come in sequence order, each message once. */
  ghost predicate InOrder(c: Setting, es: seq<Event>, node: string) {
    forall i, j :: 0 <= i < j < |es| && Delivers(c, es[i], node) && Delivers(c, es[j], node) ==>
      SequenceIn(es[i]) < SequenceIn(es[j])
  }

  /** In-order delivery inside the clock window rejects nothing valid, whatever else happens meanwhile:
      other nodes' traffic, forgeries, restarts and gaps left by lost messages. */
  lemma InOrderDeliveryIsAccepted(c: Setting, es: seq<Event>, node: string, k: nat)
    requires k < |es| && PossibleRun(c, es[..k]) && InOrder(c, es, node) && Delivers(c, es[k], node)
    ensures Accepts(c, Run(c, es[..k]), es[k])
  {
    var w := Run(c, es[..k]);
    forall a | 0 <= a < |w.accepted| && w.accepted[a].node == node
      ensures w.accepted[a].sequence < SequenceIn(es[k])
    {
      var i := AcceptedWasDelivered(c, es[..k], a);
      assert Delivers(c, es[i], node);
    }
    AcceptedIff(c, es[..k], w, es[k]);
  }

  // ---------------------------------------------------------------- on the fields of messages

  /** Authentic means, field by field: complete, issued within the skew of the clock, from an enrolled and enabled
      node under its key ID, and signed with its key over every field, the payload included. */
  lemma AuthenticIff(registry: Option<Registry>, skew: int, m: Message, now: int)
    ensures Authentic(registry, skew, m, now) <==>
            && m.payload.nodeId.Some? && m.proof.keyId.Some? && m.proof.issuedAt.Some? && m.proof.sequence.Some?
            && registry.Some? && 1 <= |registry.value| <= 10_000
            && (forall n :: n in registry.value ==> WellFormedId(n) && WellFormedId(registry.value[n].keyId))
            && var node, keyId, at, sequence := m.payload.nodeId.value, m.proof.keyId.value, m.proof.issuedAt.value, m.proof.sequence.value;
               && sequence >= 1 && at - skew <= now <= at + skew
               && node in registry.value && registry.value[node].enabled && registry.value[node].keyId == keyId
               && m.proof.signature ==
                    Some(SignedBy(registry.value[node].key, Envelope(m.kind, node, keyId, at, sequence, m.payload)))
  {
  }

  lemma RunSnoc(c: Setting, es: seq<Event>, e: Event)
    ensures Run(c, es + [e]) == Step(c, Run(c, es), e)
  {
    assert (es + [e])[..|es|] == es;
  }

  lemma SignAfterReserve(c: Setting, w: World, node: string, worker: nat, key: PublicKey, kind: string, keyId: string,
                         issuedAt: int, payload: Payload)
    requires (node, worker) !in w.reserved
    ensures var sequence := if node in w.last then w.last[node] + 1 else 1;
            Step(c, Step(c, w, Reserve(node, worker)), Sign(node, worker, key, kind, keyId, issuedAt, payload))
            == w.(last := w.last[node := sequence],
                  signed := w.signed + [Signed(key, Envelope(kind, node, keyId, issuedAt, sequence, payload))])
  {
    var sequence := NextSequence(LastOf(w, node));
    assert w.reserved[(node, worker) := sequence] - {(node, worker)} == w.reserved;
  }

  /** A worker that reserves and signs without a stop adds one signed message, with the next sequence of its node,
      and nothing else changes for other nodes. */
  lemma ReserveThenSignAdds(c: Setting, es: seq<Event>, node: string, worker: nat, key: PublicKey, kind: string,
                            keyId: string, issuedAt: int, payload: Payload)
    requires (node, worker) !in Run(c, es).reserved
    ensures var w := Run(c, es);
            var after := Run(c, es + [Reserve(node, worker)] + [Sign(node, worker, key, kind, keyId, issuedAt, payload)]);
            var sequence := if node in w.last then w.last[node] + 1 else 1;
            && after.signed == w.signed + [Signed(key, Envelope(kind, node, keyId, issuedAt, sequence, payload))]
            && after.last == w.last[node := sequence] && after.reserved == w.reserved
            && after.marks == w.marks && after.accepted == w.accepted
  {
    RunSnoc(c, es, Reserve(node, worker));
    RunSnoc(c, es + [Reserve(node, worker)], Sign(node, worker, key, kind, keyId, issuedAt, payload));
    SignAfterReserve(c, Run(c, es), node, worker, key, kind, keyId, issuedAt, payload);
  }

  /** A stop loses what a node reserved and has not signed, and nothing durable. */
  lemma StopLosesReservations(c: Setting, es: seq<Event>, node: string)
    ensures var w, after := Run(c, es), Run(c, es + [StopNode(node)]);
            && after.last == w.last && after.marks == w.marks && after.signed == w.signed && after.accepted == w.accepted
            && forall p :: p in after.reserved <==> p in w.reserved && p.0 != node
  {
    RunSnoc(c, es, StopNode(node));
  }
}
