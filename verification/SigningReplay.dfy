/**
 The replay table behind signing. One row is kept for each slot; several signers may run at once, each
 looking its row up, signing, and then inserting. What a call asks for and what a record is worth are
 parameters (`Rules`).
 */
module SigningReplay {
  import opened Prelude

  datatype Row<+D, +R> = Row(request: D, record: R)

  datatype Looked<+R> = Absent | Replayed(record: R) | Conflict

  function LookUp<K, D(==), R>(table: map<K, Row<D, R>>, slot: K, request: D): Looked<R> {
    if slot !in table then Absent
    else if table[slot].request != request then Conflict
    else Replayed(table[slot].record)
  }

  class SigningReplayStore<K(==), D(==), R(==)> {
    var table: map<K, Row<D, R>>

    constructor ()
      ensures table == map[]
    {
      table := map[];
    }

    method Lookup(slot: K, request: D) returns (looked: Looked<R>)
      ensures looked == LookUp(table, slot, request)
    {
      if slot !in table {
        return Absent;
      }
      var row := table[slot];
      if row.request != request {
        return Conflict;
      }
      return Replayed(row.record);
    }

    /** An insertion that meets an existing row is accepted only if that row is the same. */
    method Save(slot: K, request: D, record: R) returns (ok: bool)
      modifies this
      ensures old(slot !in table) ==> ok && table == old(table)[slot := Row(request, record)]
      ensures old(slot in table) ==> table == old(table) && (ok <==> table[slot] == Row(request, record))
    {
      if slot !in table {
        table := table[slot := Row(request, record)];
        return true;
      }
      var looked := Lookup(slot, request);
      return looked == Replayed(record);
    }
  }

  // ---------------------------------------------------------------- signers that run at once

  /** A call's slot, whether its checks pass, the digest of what it asks for, the record that signing it
      makes (`None` when the signatures do not verify), and whether a record answers a call. */
  datatype Rules<!C, !K, !D, !R, !S> = Rules(
    slot: C -> K, admits: C -> bool, request: C -> D, makes: (C, S) -> Option<R>, answers: (C, R) -> bool)

  predicate SameRequest<C(!new), K(!new, ==), D(!new, ==), R(!new), S(!new)>(rules: Rules<C, K, D, R, S>, first: C, later: C) {
    && rules.admits(first) && rules.admits(later)
    && rules.slot(first) == rules.slot(later) && rules.request(first) == rules.request(later)
  }

  /** A record made for a call answers it, and answers any other call that asks for the same. */
  ghost predicate Faithful<C(!new), K(!new), D(!new), R(!new), S(!new)>(rules: Rules<C, K, D, R, S>) {
    && (forall c, s :: rules.admits(c) && rules.makes(c, s).Some? ==> rules.answers(c, rules.makes(c, s).value))
    && forall first, later, r :: SameRequest(rules, first, later) && rules.answers(first, r) ==> rules.answers(later, r)
  }

  /** Where a signer stands: its row was absent, or it holds a signed record it has not inserted yet. */
  datatype Phase<+C, +R> = LookedUp(call: C) | HasSigned(call: C, record: R)

  datatype Returned<+C, +R> = Returned(call: C, record: R)

  datatype World<!C, !K, +D, +R> = World(table: map<K, Row<D, R>>, signers: map<nat, Phase<C, R>>, returned: seq<Returned<C, R>>)

  datatype Event<+C, +S> =
    | Begin(signer: nat, call: C)
    | UseKey(signer: nat, signed: S)
    | Insert(signer: nat)
    | Abandon(signer: nat)

  function Give<C, K, D, R>(w: World<C, K, D, R>, call: C, record: R, signer: nat): World<C, K, D, R> {
    w.(signers := w.signers - {signer}, returned := w.returned + [Returned(call, record)])
  }

  function Step<C, K(==), D(==), R(==), S>(rules: Rules<C, K, D, R, S>, w: World<C, K, D, R>, e: Event<C, S>): World<C, K, D, R> {
    match e
    case Begin(signer, call) =>
      if signer in w.signers || !rules.admits(call) then w
      else
        (match LookUp(w.table, rules.slot(call), rules.request(call))
         case Absent => w.(signers := w.signers[signer := LookedUp(call)])
         case Replayed(record) => Give(w, call, record, signer)
         case Conflict => w)
    case UseKey(signer, signed) =>
      if signer !in w.signers || !w.signers[signer].LookedUp? then w
      else
        var call := w.signers[signer].call;
        (match rules.makes(call, signed)
         case Some(record) => w.(signers := w.signers[signer := HasSigned(call, record)])
         case None => w.(signers := w.signers - {signer}))
    case Insert(signer) =>
      if signer !in w.signers || !w.signers[signer].HasSigned? then w
      else
        var call, record := w.signers[signer].call, w.signers[signer].record;
        var slot, row := rules.slot(call), Row(rules.request(call), record);
        if slot !in w.table then Give(w.(table := w.table[slot := row]), call, record, signer)
        else if w.table[slot] == row then Give(w, call, record, signer)
        else w.(signers := w.signers - {signer})
    case Abandon(signer) => w.(signers := w.signers - {signer})
  }

  function Run<C, K(==), D(==), R(==), S>(rules: Rules<C, K, D, R, S>, es: seq<Event<C, S>>): World<C, K, D, R>
    decreases |es|
  {
    if es == [] then World(map[], map[], []) else Step(rules, Run(rules, es[..|es| - 1]), es[|es| - 1])
  }

  /** The row was made for some admitted call on its slot. */
  ghost predicate RowOk<C(!new), K(!new), D(!new), R(!new), S(!new)>(rules: Rules<C, K, D, R, S>, slot: K, row: Row<D, R>) {
    exists c :: rules.admits(c) && rules.slot(c) == slot && rules.request(c) == row.request && rules.answers(c, row.record)
  }

  ghost predicate SignerOk<C(!new), K(!new), D(!new), R(!new), S(!new)>(rules: Rules<C, K, D, R, S>, p: Phase<C, R>) {
    rules.admits(p.call) && (p.HasSigned? ==> rules.answers(p.call, p.record))
  }

  /** A returned record is the one in the table and answers its call. */
  ghost predicate GivenOk<C(!new), K(!new), D(!new), R(!new), S(!new)>(
    rules: Rules<C, K, D, R, S>, table: map<K, Row<D, R>>, r: Returned<C, R>)
  {
    rules.slot(r.call) in table && table[rules.slot(r.call)].record == r.record && rules.answers(r.call, r.record)
  }

  ghost predicate Inv<C(!new), K(!new), D(!new), R(!new), S(!new)>(rules: Rules<C, K, D, R, S>, w: World<C, K, D, R>) {
    && (forall slot :: slot in w.table ==> RowOk(rules, slot, w.table[slot]))
    && (forall s :: s in w.signers ==> SignerOk(rules, w.signers[s]))
    && forall i :: 0 <= i < |w.returned| ==> GivenOk(rules, w.table, w.returned[i])
  }

  lemma StepKeepsInv<C(!new), K(!new), D(!new), R(!new), S(!new)>(
    rules: Rules<C, K, D, R, S>, w: World<C, K, D, R>, e: Event<C, S>)
    requires Faithful(rules) && Inv(rules, w)
    ensures Inv(rules, Step(rules, w, e))
  {
    match e
    case Begin(signer, call) =>
      if rules.admits(call) && LookUp(w.table, rules.slot(call), rules.request(call)).Replayed? {
        var row := w.table[rules.slot(call)];
        var first :| rules.admits(first) && rules.slot(first) == rules.slot(call)
                     && rules.request(first) == row.request && rules.answers(first, row.record);
        assert SameRequest(rules, first, call);
      }
    case UseKey(signer, signed) =>
      if signer in w.signers {
        assert SignerOk(rules, w.signers[signer]);
      }
    case Insert(signer) =>
      if signer in w.signers && w.signers[signer].HasSigned? {
        assert SignerOk(rules, w.signers[signer]);
        var call, record := w.signers[signer].call, w.signers[signer].record;
        assert RowOk(rules, rules.slot(call), Row(rules.request(call), record));
      }
    case Abandon(_) =>
  }

  lemma {:induction false} RunKeepsInv<C(!new), K(!new), D(!new), R(!new), S(!new)>(
    rules: Rules<C, K, D, R, S>, es: seq<Event<C, S>>)
    requires Faithful(rules)
    ensures Inv(rules, Run(rules, es))
    decreases |es|
  {
    if es != [] {
      RunKeepsInv(rules, es[..|es| - 1]);
      StepKeepsInv(rules, Run(rules, es[..|es| - 1]), es[|es| - 1]);
    }
  }

  /** However signers interleave, at most one distinct record is ever returned for a slot. */
  lemma OneRecordPerSlot<C(!new), K(!new), D(!new), R(!new), S(!new)>(
    rules: Rules<C, K, D, R, S>, es: seq<Event<C, S>>, i: nat, j: nat)
    requires Faithful(rules) && i < |Run(rules, es).returned| && j < |Run(rules, es).returned|
    requires rules.slot(Run(rules, es).returned[i].call) == rules.slot(Run(rules, es).returned[j].call)
    ensures Run(rules, es).returned[i].record == Run(rules, es).returned[j].record
  {
    RunKeepsInv(rules, es);
    var w := Run(rules, es);
    assert GivenOk(rules, w.table, w.returned[i]) && GivenOk(rules, w.table, w.returned[j]);
  }

  /** Every returned record, fresh or replayed, answers the call it was returned for. */
  lemma ReturnedAnswer<C(!new), K(!new), D(!new), R(!new), S(!new)>(
    rules: Rules<C, K, D, R, S>, es: seq<Event<C, S>>, i: nat)
    requires Faithful(rules) && i < |Run(rules, es).returned|
    ensures rules.answers(Run(rules, es).returned[i].call, Run(rules, es).returned[i].record)
  {
    RunKeepsInv(rules, es);
    assert GivenOk(rules, Run(rules, es).table, Run(rules, es).returned[i]);
  }

  /** The row behind a returned record was made for some call that the record answers too. */
  lemma ReturnedRow<C(!new), K(!new), D(!new), R(!new), S(!new)>(
    rules: Rules<C, K, D, R, S>, es: seq<Event<C, S>>, i: nat) returns (maker: C)
    requires Faithful(rules) && i < |Run(rules, es).returned|
    ensures var w := Run(rules, es);
            var r := w.returned[i];
            && rules.answers(maker, r.record) && rules.answers(r.call, r.record)
            && rules.slot(r.call) in w.table && w.table[rules.slot(r.call)] == Row(rules.request(maker), r.record)
  {
    RunKeepsInv(rules, es);
    var w := Run(rules, es);
    var slot := rules.slot(w.returned[i].call);
    assert GivenOk(rules, w.table, w.returned[i]);
    assert RowOk(rules, slot, w.table[slot]);
    maker :| rules.admits(maker) && rules.slot(maker) == slot && rules.request(maker) == w.table[slot].request
             && rules.answers(maker, w.table[slot].record);
  }

  lemma RunSnoc<C, K, D, R, S>(rules: Rules<C, K, D, R, S>, es: seq<Event<C, S>>, e: Event<C, S>)
    ensures Run(rules, es + [e]) == Step(rules, Run(rules, es), e)
  {
    assert (es + [e])[..|es|] == es;
  }

  /** A call that stops after signing and before the insertion leaves no row, so a repetition is treated as
      if it were the first. */
  lemma StoppedCallLeavesNoTrace<C, K, D, R, S>(
    rules: Rules<C, K, D, R, S>, es: seq<Event<C, S>>, signer: nat, call: C, s: S)
    requires signer !in Run(rules, es).signers && rules.slot(call) !in Run(rules, es).table
    ensures Run(rules, es + [Begin(signer, call)] + [UseKey(signer, s)] + [Abandon(signer)]) == Run(rules, es)
  {
    var w := Run(rules, es);
    RunSnoc(rules, es, Begin(signer, call));
    RunSnoc(rules, es + [Begin(signer, call)], UseKey(signer, s));
    RunSnoc(rules, es + [Begin(signer, call)] + [UseKey(signer, s)], Abandon(signer));
    var used := Run(rules, es + [Begin(signer, call)] + [UseKey(signer, s)]);
    assert used.signers - {signer} == w.signers;
  }

  lemma BeginFresh<C, K, D, R, S>(rules: Rules<C, K, D, R, S>, w: World<C, K, D, R>, signer: nat, call: C)
    requires signer !in w.signers && rules.slot(call) !in w.table && rules.admits(call)
    ensures Step(rules, w, Event<C, S>.Begin(signer, call)) == w.(signers := w.signers[signer := LookedUp(call)])
  {
  }

  lemma UseKeySigns<C, K, D, R, S>(rules: Rules<C, K, D, R, S>, w: World<C, K, D, R>, signer: nat, call: C, s: S)
    requires signer in w.signers && w.signers[signer] == LookedUp(call) && rules.makes(call, s).Some?
    ensures Step(rules, w, UseKey(signer, s)) == w.(signers := w.signers[signer := HasSigned(call, rules.makes(call, s).value)])
  {
  }

  lemma InsertAdds<C, K, D, R, S>(rules: Rules<C, K, D, R, S>, w: World<C, K, D, R>, signer: nat, call: C, record: R)
    requires signer in w.signers && w.signers[signer] == HasSigned(call, record) && rules.slot(call) !in w.table
    ensures Step(rules, w, Event<C, S>.Insert(signer)) ==
            World(w.table[rules.slot(call) := Row(rules.request(call), record)], w.signers - {signer},
                  w.returned + [Returned(call, record)])
  {
  }

  /** A call that is admitted on a slot without a row, signed and inserted without interruption returns its record
      and leaves its row. */
  lemma CallCompletes<C, K, D, R, S>(rules: Rules<C, K, D, R, S>, es: seq<Event<C, S>>, signer: nat, call: C, s: S)
    requires signer !in Run(rules, es).signers && rules.slot(call) !in Run(rules, es).table
    requires rules.admits(call) && rules.makes(call, s).Some?
    ensures var w, record := Run(rules, es), rules.makes(call, s).value;
            Run(rules, es + [Begin(signer, call)] + [UseKey(signer, s)] + [Insert(signer)]) ==
            World(w.table[rules.slot(call) := Row(rules.request(call), record)], w.signers,
                  w.returned + [Returned(call, record)])
  {
    var w, record := Run(rules, es), rules.makes(call, s).value;
    RunSnoc(rules, es, Begin(signer, call));
    BeginFresh<C, K, D, R, S>(rules, w, signer, call);
    RunSnoc(rules, es + [Begin(signer, call)], UseKey(signer, s));
    UseKeySigns(rules, w.(signers := w.signers[signer := LookedUp(call)]), signer, call, s);
    RunSnoc(rules, es + [Begin(signer, call)] + [UseKey(signer, s)], Insert(signer));
    var signing := w.signers[signer := LookedUp(call)][signer := HasSigned(call, record)];
    InsertAdds<C, K, D, R, S>(rules, w.(signers := signing), signer, call, record);
    assert signing - {signer} == w.signers;
  }

  /** A call whose request is that of the row in its slot is given the row's record at once. */
  lemma RepeatIsReplayed<C, K, D, R, S>(rules: Rules<C, K, D, R, S>, es: seq<Event<C, S>>, signer: nat, call: C)
    requires signer !in Run(rules, es).signers && rules.slot(call) in Run(rules, es).table && rules.admits(call)
    requires Run(rules, es).table[rules.slot(call)].request == rules.request(call)
    ensures var w, after := Run(rules, es), Run(rules, es + [Begin(signer, call)]);
            after == w.(returned := w.returned + [Returned(call, w.table[rules.slot(call)].record)])
  {
    RunSnoc(rules, es, Begin(signer, call));
    assert Run(rules, es).signers - {signer} == Run(rules, es).signers;
  }
}
