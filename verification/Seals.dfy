/** Where outputs are sealed, seal by seal, and which transactions close them. */
module Seals {
  import opened Agreement
  import opened Anchor
  import opened Bytes
  import opened Catalog
  import opened Collections
  import opened Operations
  import opened Outputs
  import opened Redisclosure
  import opened Safety
  import opened Schemas
  import opened SchemaTotals
  import opened Symbols
  import opened Validator
  import opened Wrappers

  // ----- one seal

  /** The transaction output that a seal names. A seal may leave the transaction open:
      then it is `txid`, the one that witnesses the operation. */
  ghost predicate SealedAt(seal: Seal, txid: Digest, at: Outpoint) {
    match seal
    case BlindSeal(sealed, vout, _) => at == Outpoint(sealed, vout)
    case GraphSeal(TxId(sealed), vout, _) => at == Outpoint(sealed, vout)
    case GraphSeal(WitnessTx, vout, _) => at == Outpoint(txid, vout)
  }

  /** The transaction is left open by the seal. */
  ghost predicate OnWitness(seal: Seal) {
    seal.GraphSeal? && seal.ptr == WitnessTx
  }

  /** Output numbers have 32 bits, and the 32 zero bytes are no transaction. */
  ghost predicate Closable(seal: Seal, txid: Digest) {
    seal.vout < 0x1_0000_0000 && !(OnWitness(seal) && txid == Raw(seq(32, _ => 0)))
  }

  /** The live output that the disclosed assignment of this seal and state becomes. */
  ghost predicate Lives(state: State, seal: Seal, txid: Digest, p: Placed) {
    && p.state == state
    && SealedAt(seal, txid, p.outpoint)
    && p.blinding == seal.blinding
    && (p.pointer <==> OnWitness(seal))
    && p.creator == txid
  }

  /** A disclosed assignment becomes a live output at the output its seal names, or its seal names none. */
  lemma {:induction false} PlacingExactly(state: State, seal: Seal, txid: Digest)
    ensures Placing(state, seal, txid).Ok? <==> Closable(seal, txid)
    ensures Placing(state, seal, txid).Err? ==> Placing(state, seal, txid).error == SealNotClosed
    ensures forall p :: Placing(state, seal, txid) == Ok(p) ==> Lives(state, seal, txid, p)
  {
    assert ZERO == Raw(seq(32, _ => 0)) by {
      assert Repeat(0, 32) == seq(32, _ => 0);
    }
  }

  // ----- the outputs of one operation

  /** Assignment `no` of type `ty` is disclosed. */
  ghost predicate Discloses(es: seq<Entry>, ty: nat, no: nat, seal: Seal, state: State) {
    exists n :: 0 <= n < |es| && DisclosesIn(es[n], ty, no, seal, state)
  }

  ghost predicate DisclosesIn(e: Entry, ty: nat, no: nat, seal: Seal, state: State) {
    e.ty == ty && no < |e.assigns| && e.assigns[no] == Revealed(seal, state)
  }

  lemma {:induction false} OfDiscloses(es: seq<Entry>, ty: nat, no: nat, seal: Seal, state: State)
    requires Increases(es)
    ensures Discloses(es, ty, no, seal, state) <==> no < |Of(es, ty)| && Of(es, ty)[no] == Revealed(seal, state)
  {
    if es != [] {
      var rest := es[1..];
      IncreasesTail(es);
      OfDiscloses(rest, ty, no, seal, state);
      if Discloses(es, ty, no, seal, state) {
        var n :| 0 <= n < |es| && DisclosesIn(es[n], ty, no, seal, state);
        assert n > 0 ==> rest[n - 1] == es[n] && es[0].ty < es[n].ty;
      }
      if Discloses(rest, ty, no, seal, state) {
        var n :| 0 <= n < |rest| && DisclosesIn(rest[n], ty, no, seal, state);
        assert es[n + 1] == rest[n] && es[0].ty < es[n + 1].ty;
      }
      if es[0].ty == ty && no < |es[0].assigns| && es[0].assigns[no] == Revealed(seal, state) {
        assert DisclosesIn(es[0], ty, no, seal, state);
      }
    }
  }

  ghost predicate AllClosable(es: seq<Entry>, txid: Digest) {
    forall ty: nat, no: nat, seal, state :: Discloses(es, ty, no, seal, state) ==> Closable(seal, txid)
  }

  lemma {:induction false} ClosableIsPlaced(es: seq<Entry>, txid: Digest)
    requires Increases(es)
    ensures PlacesAll(es, txid) <==> AllClosable(es, txid)
  {
    hide Placing, Closable, Discloses;
    forall ty: nat, no: nat, seal, state ensures Discloses(es, ty, no, seal, state) <==> IsRevealed(es, ty, no) && Of(es, ty)[no] == Revealed(seal, state) {
      OfDiscloses(es, ty, no, seal, state);
    }
    forall seal, state ensures Placing(state, seal, txid).Ok? <==> Closable(seal, txid) {
      PlacingExactly(state, seal, txid);
    }
    if AllClosable(es, txid) {
      forall ty: nat, no: nat | IsRevealed(es, ty, no) ensures Placing(Of(es, ty)[no].state, Of(es, ty)[no].seal, txid).Ok? {
        assert Discloses(es, ty, no, Of(es, ty)[no].seal, Of(es, ty)[no].state);
      }
    }
    if PlacesAll(es, txid) {
      forall ty: nat, no: nat, seal, state | Discloses(es, ty, no, seal, state) ensures Closable(seal, txid) {
        assert IsRevealed(es, ty, no);
      }
    }
  }

  lemma {:induction false} RegisterFails(states: map<InputRef, Placed>, op: Digest, outs: seq<Output>, txid: Digest)
    ensures Register(states, op, outs, txid).Err? ==> Register(states, op, outs, txid).error == SealNotClosed
    decreases outs
  {
    hide Placing;
    if outs != [] {
      PlacingExactly(outs[0].state, outs[0].seal, txid);
      var placed := Placing(outs[0].state, outs[0].seal, txid);
      if placed.Ok? {
        RegisterFails(states[InputRef(op, outs[0].ty, outs[0].no) := placed.value], op, outs[1..], txid);
      }
    }
  }

  /** Of operation `op` exactly the disclosed assignments are live, each where its seal says. */
  ghost predicate LiveExactly(m: map<InputRef, Placed>, op: Digest, es: seq<Entry>, txid: Digest) {
    && (forall ref :: ref in m && ref.op == op ==> exists seal, state :: Discloses(es, ref.ty, ref.no, seal, state))
    && forall ty, no, seal, state :: Discloses(es, ty, no, seal, state) ==> LivesAt(m, InputRef(op, ty, no), state, seal, txid)
  }

  ghost predicate LivesAt(m: map<InputRef, Placed>, ref: InputRef, state: State, seal: Seal, txid: Digest) {
    ref in m && Lives(state, seal, txid, m[ref])
  }

  /** All other live outputs are as they were. */
  ghost predicate Keeps(states: map<InputRef, Placed>, op: Digest, m: map<InputRef, Placed>) {
    && (forall ref :: ref in m && ref.op != op ==> ref in states)
    && forall ref :: ref in states ==> ref in m && m[ref] == states[ref]
  }

  /** An operation whose seals can all be closed adds exactly its disclosed assignments;
      with any other seal it is refused. */
  lemma {:induction false} RegisterSeals(states: map<InputRef, Placed>, op: Digest, es: seq<Entry>, txid: Digest)
    requires Increases(es) && forall r :: r in states ==> r.op != op
    ensures var m := Register(states, op, RevealedOutputs(es), txid);
            && (m.Ok? <==> AllClosable(es, txid))
            && (m.Err? ==> m.error == SealNotClosed)
            && (m.Ok? ==> LiveExactly(m.value, op, es, txid) && Keeps(states, op, m.value))
  {
    hide Placing, Register, Closable, Discloses, Lives;
    RegisterExactly(states, op, es, txid);
    ClosableIsPlaced(es, txid);
    RegisterFails(states, op, RevealedOutputs(es), txid);
    if Register(states, op, RevealedOutputs(es), txid).Ok? {
      var m := Register(states, op, RevealedOutputs(es), txid).value;
      forall ref ensures (ref in m && ref.op != op <==> ref in states) && (ref in states ==> m[ref] == states[ref]) {
        RegisterMeans(states, op, es, txid, ref);
      }
      forall ty, no, seal, state | Discloses(es, ty, no, seal, state) ensures LivesAt(m, InputRef(op, ty, no), state, seal, txid) {
        OfDiscloses(es, ty, no, seal, state);
        RegisterMeans(states, op, es, txid, InputRef(op, ty, no));
        PlacingExactly(state, seal, txid);
      }
      forall ref | ref in m && ref.op == op ensures exists seal, state :: Discloses(es, ref.ty, ref.no, seal, state) {
        RegisterMeans(states, op, es, txid, ref);
        var a := Of(es, ref.ty)[ref.no];
        OfDiscloses(es, ref.ty, ref.no, a.seal, a.state);
      }
    }
  }

  /** After genesis exactly its disclosed assignments are live, each at the output its seal
      names; a genesis with a seal on a witness, or out of range, has no start. */
  lemma {:induction false} StartSeals(g: Genesis)
    requires CanonicalGenesis(g)
    ensures Start(g).Ok? <==> AllClosable(g.assignments, ZERO)
    ensures Start(g).Err? ==> Start(g).error == SealNotClosed
    ensures Start(g).Ok? ==> LiveExactly(Start(g).value.states, GenesisId(g), g.assignments, ZERO)
    ensures Start(g).Ok? ==> forall ref :: ref in Start(g).value.states ==> ref.op == GenesisId(g)
  {
    hide GenesisId, Register, AllClosable, LiveExactly;
    EntriesIncrease(g.assignments);
    RegisterSeals(map[], GenesisId(g), g.assignments, ZERO);
    if Start(g).Ok? {
      forall ref | ref in Start(g).value.states ensures ref.op == GenesisId(g) {
        RegisterMeans(map[], GenesisId(g), g.assignments, ZERO, ref);
      }
    }
  }

  /** The checks on a transition before its outputs are entered. */
  ghost predicate Checks(env: Env, mode: Mode, contract: Digest, l: Ledger, o: Opened, t: Transition) {
    && t.inputs != []
    && InputsError(env, mode, l, o, TransitionId(t), t.inputs) == None
    && Validated(env.schema, env.types, t, Context(contract, l.globals), Resolution(l.states)).Ok?
  }

  lemma {:induction false} ApplyRegisters(env: Env, mode: Mode, contract: Digest, l: Ledger, o: Opened, t: Transition)
    requires Checks(env, mode, contract, l, o, t)
    ensures var m := Register(l.states - Elements(t.inputs), TransitionId(t), RevealedOutputs(t.assignments), o.closer.txid);
            && (Apply(env, mode, contract, l, o, t).Ok? <==> m.Ok?)
            && (m.Err? ==> Apply(env, mode, contract, l, o, t).error == m.error)
  {
    hide TransitionId, Validated, InputsError, Register, RevealedOutputs;
  }

  lemma {:induction false} CheckedIsFresh(env: Env, mode: Mode, g: Genesis, l: Ledger, o: Opened, t: Transition)
    requires Safe(g, l) && CanonicalTransition(t) && Checks(env, mode, GenesisId(g), l, o, t)
    ensures forall r :: r in l.states ==> r.op != TransitionId(t)
  {
    hide TransitionId, GenesisId, CanonicalTransition, Safe, Validated;
    InputsAccepted(env, mode, l, o, TransitionId(t), t.inputs);
    assert InputAccepted(l, o, TransitionId(t), t.inputs[0]);
    SeenInputs(g, l, t);
    NothingUnderFreshId(g, l, TransitionId(t));
  }

  /** A transition whose inputs and state pass is accepted exactly when every disclosed seal can be closed. */
  lemma {:induction false} SealsDecide(env: Env, mode: Mode, g: Genesis, l: Ledger, o: Opened, t: Transition)
    requires Safe(g, l) && CanonicalTransition(t) && Checks(env, mode, GenesisId(g), l, o, t)
    ensures Apply(env, mode, GenesisId(g), l, o, t).Ok? <==> AllClosable(t.assignments, o.closer.txid)
    ensures Apply(env, mode, GenesisId(g), l, o, t).Err? ==> Apply(env, mode, GenesisId(g), l, o, t).error == SealNotClosed
  {
    hide TransitionId, GenesisId, CanonicalTransition, Safe, Checks, Apply, Register, AllClosable;
    CheckedIsFresh(env, mode, g, l, o, t);
    assert CanonicalEntries(t.assignments) by { EntriesOf(t); }
    EntriesIncrease(t.assignments);
    ApplyRegisters(env, mode, GenesisId(g), l, o, t);
    RegisterSeals(l.states - Elements(t.inputs), TransitionId(t), t.assignments, o.closer.txid);
  }

  lemma {:induction false} EntriesOf(t: Transition)
    requires CanonicalTransition(t)
    ensures CanonicalEntries(t.assignments)
  {
  }

  /** After an accepted transition, what it spent is gone, and of its own outputs exactly the
      disclosed ones are live: on the transaction that the seal names, else on the witness. */
  lemma {:induction false} ApplySeals(env: Env, mode: Mode, g: Genesis, l: Ledger, o: Opened, t: Transition)
    requires Safe(g, l) && CanonicalTransition(t) && Apply(env, mode, GenesisId(g), l, o, t).Ok?
    ensures var m := Apply(env, mode, GenesisId(g), l, o, t).value;
            && LiveExactly(m.states, TransitionId(t), t.assignments, o.closer.txid)
            && (forall ref :: ref in m.states && ref.op != TransitionId(t) <==> ref in l.states && ref !in t.inputs)
            && (forall ref :: ref in m.states && ref.op != TransitionId(t) ==> m.states[ref] == l.states[ref])
  {
    hide TransitionId, GenesisId, CanonicalTransition, Safe, Apply, Register, LiveExactly;
    Applied(env, mode, GenesisId(g), l, o, t);
    FreshId(env, mode, g, l, o, t);
    NothingUnderFreshId(g, l, TransitionId(t));
    assert CanonicalEntries(t.assignments) by { EntriesOf(t); }
    EntriesIncrease(t.assignments);
    RegisterSeals(l.states - Elements(t.inputs), TransitionId(t), t.assignments, o.closer.txid);
    forall ref ensures var m := Apply(env, mode, GenesisId(g), l, o, t).value;
      && (ref in m.states && ref.op != TransitionId(t) <==> ref in l.states && ref !in t.inputs)
      && (ref in m.states && ref.op != TransitionId(t) ==> m.states[ref] == l.states[ref])
    {
      RegisterMeans(l.states - Elements(t.inputs), TransitionId(t), t.assignments, o.closer.txid, ref);
    }
  }

  // ----- seals are closed, over runs

  /** Genesis or an operation of the log disclosed the output, and was witnessed by `txid`. */
  ghost predicate Made(g: Genesis, log: seq<Event>, ref: InputRef, seal: Seal, state: State, txid: Digest) {
    || (ref.op == GenesisId(g) && txid == ZERO && Discloses(g.assignments, ref.ty, ref.no, seal, state))
    || exists j :: 0 <= j < |log| && MadeBy(log[j], ref, seal, state, txid)
  }

  ghost predicate MadeBy(e: Event, ref: InputRef, seal: Seal, state: State, txid: Digest) {
    e.host.closer.txid == txid && Disclosed(e, ref, seal, state)
  }

  ghost predicate Disclosed(e: Event, ref: InputRef, seal: Seal, state: State) {
    e.op == ref.op && Discloses(e.transition.assignments, ref.ty, ref.no, seal, state)
  }

  /** The transaction spends the output that the seal names. */
  ghost predicate ClosesSeal(tx: Tx, seal: Seal, txid: Digest) {
    exists at :: SealedAt(seal, txid, at) && at in tx.spends
  }

  lemma {:induction false} FromIs(es: seq<Entry>, txid: Digest, ref: InputRef, p: Placed) returns (seal: Seal, state: State)
    requires Increases(es) && From(es, txid, ref, p)
    ensures Discloses(es, ref.ty, ref.no, seal, state) && Lives(state, seal, txid, p)
  {
    hide Placing;
    seal, state := Of(es, ref.ty)[ref.no].seal, Of(es, ref.ty)[ref.no].state;
    OfDiscloses(es, ref.ty, ref.no, seal, state);
    PlacingExactly(state, seal, txid);
  }

  /** A traced output was made, and lives where it was sealed. */
  lemma {:induction false} OriginIs(g: Genesis, log: seq<Event>, ref: InputRef, p: Placed) returns (seal: Seal, state: State)
    requires CanonicalGenesis(g) && SoundLog(log) && Origin(g, log, ref, p)
    ensures Made(g, log, ref, seal, state, p.creator) && Lives(state, seal, p.creator, p)
  {
    hide GenesisId, From, Discloses, TransitionId, TxSpends, InputMapCommits;
    if ref.op == GenesisId(g) && From(g.assignments, ZERO, ref, p) {
      EntriesIncrease(g.assignments);
      seal, state := FromIs(g.assignments, ZERO, ref, p);
    } else {
      var j :| 0 <= j < |log| && Makes(log[j], ref, p);
      assert SoundEvent(log[j]);
      EntriesIncrease(log[j].transition.assignments);
      seal, state := FromIs(log[j].transition.assignments, log[j].host.closer.txid, ref, p);
      assert MadeBy(log[j], ref, seal, state, p.creator);
    }
  }

  lemma {:induction false} DisclosedByOne(l: Ledger, ref: InputRef, j: nat, k: nat, seal: Seal, state: State, seal': Seal, state': State)
    requires SoundLog(l.log) && DistinctOps(l.log) && j < |l.log| && k < |l.log|
    requires Disclosed(l.log[j], ref, seal, state) && Disclosed(l.log[k], ref, seal', state')
    ensures j == k && seal == seal' && state == state'
  {
    hide TransitionId, Discloses, InputMapCommits, TxSpends;
    assert SoundEvent(l.log[j]);
    EntriesIncrease(l.log[j].transition.assignments);
    DisclosedOnce(l.log[j].transition.assignments, ref.ty, ref.no, seal, state, seal', state');
  }

  /** What was made under one reference was made once. */
  lemma {:induction false} MadeOnce(g: Genesis, l: Ledger, ref: InputRef, seal: Seal, state: State, txid: Digest, seal': Seal, state': State, txid': Digest)
    requires CanonicalGenesis(g) && SoundLog(l.log) && Graphed(GenesisId(g), l)
    requires Made(g, l.log, ref, seal, state, txid) && Made(g, l.log, ref, seal', state', txid')
    ensures seal == seal' && state == state' && txid == txid'
  {
    hide GenesisId, Discloses, SoundLog, HasNode, DistinctOps;
    if ref.op == GenesisId(g) {
      assert !Logged(l.log, ref.op);
      EntriesIncrease(g.assignments);
      DisclosedOnce(g.assignments, ref.ty, ref.no, seal, state, seal', state');
    } else {
      var j :| 0 <= j < |l.log| && MadeBy(l.log[j], ref, seal, state, txid);
      var k :| 0 <= k < |l.log| && MadeBy(l.log[k], ref, seal', state', txid');
      DisclosedByOne(l, ref, j, k, seal, state, seal', state');
    }
  }

  lemma {:induction false} DisclosedOnce(es: seq<Entry>, ty: nat, no: nat, seal: Seal, state: State, seal': Seal, state': State)
    requires Increases(es) && Discloses(es, ty, no, seal, state) && Discloses(es, ty, no, seal', state')
    ensures seal == seal' && state == state'
  {
    OfDiscloses(es, ty, no, seal, state);
    OfDiscloses(es, ty, no, seal', state');
  }

  lemma {:induction false} MadeLater(g: Genesis, log: seq<Event>, i: nat, ref: InputRef, seal: Seal, state: State, txid: Digest)
    requires i <= |log| && Made(g, log[..i], ref, seal, state, txid)
    ensures Made(g, log, ref, seal, state, txid)
  {
    hide GenesisId, Discloses;
    if j :| 0 <= j < i && MadeBy(log[..i][j], ref, seal, state, txid) {
      assert MadeBy(log[j], ref, seal, state, txid);
    }
  }

  /** Input `k` of operation `i` was disclosed by genesis or an earlier operation, and the witness
      of operation `i` spends the very output that the disclosed seal names. */
  lemma {:induction false} SpentSealIsClosed(g: Genesis, l: Ledger, i: nat, k: nat)
    requires CanonicalGenesis(g) && Safe(g, l) && i < |l.log| && k < |l.log[i].transition.inputs|
    ensures exists seal, state, txid :: Made(g, l.log[..i], l.log[i].transition.inputs[k], seal, state, txid)
    ensures forall seal, state, txid :: Made(g, l.log, l.log[i].transition.inputs[k], seal, state, txid) ==>
              && Made(g, l.log[..i], l.log[i].transition.inputs[k], seal, state, txid)
              && ClosesSeal(l.log[i].host.closer.tx, seal, txid)
              && l.log[i].spent[k].state == state
  {
    hide GenesisId, TransitionId, SingleUse, Graphed, Bundled, Made, Origin, InputMapCommits;
    var ref, p := l.log[i].transition.inputs[k], l.log[i].spent[k];
    assert SoundEvent(l.log[i]) && Origin(g, l.log[..i], ref, p);
    assert SoundLog(l.log[..i]);
    var s, v := OriginIs(g, l.log[..i], ref, p);
    MadeLater(g, l.log, i, ref, s, v, p.creator);
    assert ClosesSeal(l.log[i].host.closer.tx, s, p.creator) by {
      assert SealedAt(s, p.creator, p.outpoint) && p.outpoint in l.log[i].host.closer.tx.spends;
    }
    forall seal, state, txid | Made(g, l.log, ref, seal, state, txid) ensures seal == s && state == v && txid == p.creator {
      MadeOnce(g, l, ref, seal, state, txid, s, v, p.creator);
    }
  }

  /** In every accepted container, for any two of its operations: the witness of the one that
      spends an output of the other spends the transaction output that the output was sealed
      to, a named one or one of the creator's own witness; and the same for outputs of genesis. */
  lemma {:induction false} SealsAreClosed(env: Env, mode: Mode, c: Consignment, i: nat, no: nat)
    requires CanonicalConsignment(c) && RunAll(env, mode, c).Ok?
    requires var log := RunAll(env, mode, c).value.ledger.log; i < |log| && no < |log[i].transition.inputs|
    ensures var log := RunAll(env, mode, c).value.ledger.log;
            var input, spends := log[i].transition.inputs[no], log[i].host.closer.tx.spends;
            && (forall j, u, vout, blinding, state :: 0 <= j < |log| && Disclosed(log[j], input, GraphSeal(TxId(u), vout, blinding), state) ==>
                  j < i && Outpoint(u, vout) in spends)
            && (forall j, vout, blinding, state :: 0 <= j < |log| && Disclosed(log[j], input, GraphSeal(WitnessTx, vout, blinding), state) ==>
                  j < i && Outpoint(log[j].host.closer.txid, vout) in spends)
            && (input.op == GenesisId(c.genesis) ==> forall u, vout, blinding, state ::
                  Discloses(c.genesis.assignments, input.ty, input.no, BlindSeal(u, vout, blinding), state) ==> Outpoint(u, vout) in spends)
  {
    hide RunAll, GenesisId, Discloses, Made, Graphed, SoundEvent, Traced, Bundled, SingleUse, CanonicalGenesis, CanonicalWitnessBundle;
    RunIsSafe(env, mode, c);
    var l := RunAll(env, mode, c).value.ledger;
    SpentSealIsClosed(c.genesis, l, i, no);
    var input := l.log[i].transition.inputs[no];
    forall j, seal, state | 0 <= j < |l.log| && Disclosed(l.log[j], input, seal, state)
      ensures j < i && ClosesSeal(l.log[i].host.closer.tx, seal, l.log[j].host.closer.txid)
    {
      MadeAt(c.genesis, l, input, j, seal, state);
      MadeBefore(c.genesis, l, input, i, j, seal, state);
    }
    forall seal, state | input.op == GenesisId(c.genesis) && Discloses(c.genesis.assignments, input.ty, input.no, seal, state)
      ensures ClosesSeal(l.log[i].host.closer.tx, seal, ZERO)
    {
      MadeAtGenesis(c.genesis, l, input, seal, state);
    }
  }

  lemma {:induction false} MadeAt(g: Genesis, l: Ledger, ref: InputRef, j: nat, seal: Seal, state: State)
    requires j < |l.log| && Disclosed(l.log[j], ref, seal, state)
    ensures Made(g, l.log, ref, seal, state, l.log[j].host.closer.txid)
  {
    assert MadeBy(l.log[j], ref, seal, state, l.log[j].host.closer.txid);
  }

  lemma {:induction false} MadeAtGenesis(g: Genesis, l: Ledger, ref: InputRef, seal: Seal, state: State)
    requires ref.op == GenesisId(g) && Discloses(g.assignments, ref.ty, ref.no, seal, state)
    ensures Made(g, l.log, ref, seal, state, ZERO)
  {
  }

  lemma {:induction false} MadeBefore(g: Genesis, l: Ledger, ref: InputRef, i: nat, j: nat, seal: Seal, state: State)
    requires Graphed(GenesisId(g), l) && i < |l.log| && j < |l.log| && l.log[j].op == ref.op
    requires Made(g, l.log[..i], ref, seal, state, l.log[j].host.closer.txid)
    ensures j < i
  {
    hide GenesisId, Discloses;
    assert Logged(l.log, ref.op);
    var k :| 0 <= k < i && MadeBy(l.log[..i][k], ref, seal, state, l.log[j].host.closer.txid);
    assert l.log[k].op == l.log[j].op;
  }
}
