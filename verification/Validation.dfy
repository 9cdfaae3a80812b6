/** The validator as a program over its working maps, and its entry points. */
module Validation {
  import opened Anchor
  import opened Ancestors
  import opened Bytes
  import opened Catalog
  import opened Collections
  import opened Operations
  import opened Outputs
  import opened Report
  import opened Safety
  import opened Schemas
  import opened SchemaPrograms
  import opened Symbols
  import opened Validator
  import opened Wrappers
  import Mpc
  import Tapret

  // ----- checks that only read

  method ScanInputMap(m: seq<Commit>, input: InputRef, op: Digest) returns (found: bool)
    ensures found <==> InputMapCommits(m, input, op)
  {
    for i := 0 to |m|
      invariant Commit(input, op) !in m[..i]
    {
      assert m[..i + 1] == m[..i] + [m[i]];
      if m[i].input == input && m[i].op == op {
        assert m[i] == Commit(input, op);
        return true;
      }
    }
    assert m[..|m|] == m;
    return false;
  }

  method ScanSpends(tx: Tx, outpoint: Outpoint) returns (found: bool)
    ensures found <==> TxSpends(tx, outpoint)
  {
    for i := 0 to |tx.spends|
      invariant outpoint !in tx.spends[..i]
    {
      assert tx.spends[..i + 1] == tx.spends[..i] + [tx.spends[i]];
      if tx.spends[i] == outpoint {
        return true;
      }
    }
    assert tx.spends[..|tx.spends|] == tx.spends;
    return false;
  }

  method CheckDbc(c: Crypto, tx: Tx, proof: DbcProof, commitment: Digest) returns (ok: bool)
    ensures ok <==> VerifyDBC(c, tx, proof, commitment).Ok?
  {
    var carrier := FirstCarrier(tx);
    if carrier.None? {
      return false;
    }
    match proof {
      case Opret => return carrier.value.script == OpretScript(commitment);
      case TapretProof(internal, nonce, partner) =>
        if !IsTaproot(carrier.value.script) {
          return false;
        }
        var key := Tapret.OutputKey(c, internal, commitment, nonce, partner);
        return key.Ok? && carrier.value.script == TapretPkScript(key.value);
      case UnknownMethod(_) => return false;
    }
  }

  /** A bundle before its transitions: commitment, multi-protocol proof, witness and anchor. */
  method OpenBundle(env: Env, allowPrepared: bool, contract: Digest, wb: WitnessBundle) returns (r: Result<Opened, Failure>)
    ensures r == Open(env, allowPrepared, contract, wb)
  {
    hide BundleOf, Mpc.Convolution, Resolved, VerifyDBC;
    var bundle := CommitBundle(wb.bundle);
    if bundle.Err? {
      return Err(Uncommitted(bundle.error));
    }
    assert bundle.value.id == BundleOf(wb.bundle).value.id;
    if wb.mpc.position >= U32 || wb.mpc.cofactor >= U16 {
      return Err(BadAnchor);
    }
    var commitment := Mpc.ConvolveMPC(env.crypto, wb.mpc, contract, bundle.value.id);
    if commitment.Err? {
      return Err(BadAnchor);
    }
    var closer := Resolved(wb.pub, env.resolver, allowPrepared);
    if closer.Err? {
      return Err(closer.error);
    }
    var anchored := CheckDbc(env.crypto, closer.value.tx, wb.dbc, commitment.value);
    if !anchored {
      return Err(BadAnchor);
    }
    return Ok(Opened(bundle.value.id, wb.bundle.inputMap, bundle.value.inputOps, bundle.value.transitions, wb.mpc, wb.dbc, closer.value));
  }

  // ----- the run

  class History {
    const env: Env
    const mode: Mode
    const contract: Digest
    const collector: Collector
    var states: map<InputRef, Placed>
    var consumed: set<InputRef>
    var graph: map<Digest, Node>
    var bundleOps: map<Digest, seq<Digest>>
    var globals: Values
    var prepared: map<Digest, Tx>
    var complete: bool
    ghost var log: seq<Event>

    constructor (env: Env, mode: Mode, contract: Digest)
      ensures this.env == env && this.mode == mode && this.contract == contract
      ensures fresh(collector) && collector.Tells([])
      ensures states == map[] && consumed == {} && graph == map[contract := Node(ZERO, [])] && bundleOps == map[]
      ensures globals == map[] && prepared == map[] && complete && log == []
    {
      this.env, this.mode, this.contract := env, mode, contract;
      collector := new Collector();
      states, consumed, graph, bundleOps := map[], {}, map[contract := Node(ZERO, [])], map[];
      globals, prepared, complete, log := map[], map[], true, [];
    }

    /** The abstract state of the run. */
    ghost function Abstract(): Ledger
      reads this
    {
      Ledger(states, consumed, graph, bundleOps, globals, log)
    }

    ghost function Now(): Run
      reads this
    {
      Run(Abstract(), prepared, complete)
    }

    /** The collector has been told of every operation, when there is one to tell. */
    ghost predicate Told()
      reads this, collector
    {
      mode.collecting ==> collector.Tells(log)
    }

    method RegisterOutputs(op: Digest, es: seq<Entry>, txid: Digest) returns (e: Option<Failure>)
      modifies this`states
      ensures e == match Register(old(states), op, RevealedOutputs(es), txid) case Ok(_) => None case Err(f) => Some(f)
      ensures e.None? ==> Register(old(states), op, RevealedOutputs(es), txid) == Ok(states)
    {
      var outputs := CollectRevealed(es);
      for i := 0 to |outputs|
        invariant Register(old(states), op, outputs, txid) == Register(states, op, outputs[i..], txid)
      {
        var output := outputs[i];
        assert outputs[i..][1..] == outputs[i + 1..] && outputs[i..][0] == output;
        var placed := Placing(output.state, output.seal, txid);
        if placed.Err? {
          return Some(placed.error);
        }
        states := states[InputRef(op, output.ty, output.no) := placed.value];
      }
      return None;
    }

    method AppendOperationGlobals(gs: seq<Global>)
      modifies this`globals
      ensures globals == AppendGlobals(old(globals), gs)
    {
      for i := 0 to |gs|
        invariant AppendGlobals(old(globals), gs) == AppendGlobals(globals, gs[i..])
      {
        assert gs[i..][1..] == gs[i + 1..] && gs[i..][0] == gs[i];
        globals := Append(globals, gs[i].ty, gs[i].values);
      }
    }

    method CheckInput(o: Opened, op: Digest, input: InputRef) returns (e: Option<Failure>)
      ensures e == InputError(env, mode, Abstract(), o, op, input)
    {
      var committed := ScanInputMap(o.inputMap, input, op);
      if !committed {
        return Some(InputMapMismatch);
      }
      if input in consumed {
        return Some(DuplicateStateSpend);
      }
      if input !in states {
        return Some(Refused(Unresolved));
      }
      var previous := states[input];
      var spends := ScanSpends(o.closer.tx, previous.outpoint);
      if !spends {
        return Some(SealNotClosed);
      }
      if o.closer.state.Prepared? && !(mode.historyOnly && mode.collecting) {
        return PreparedInputError(env.resolver, previous.outpoint, o.closer.txid);
      }
      return None;
    }

    method CheckInputs(o: Opened, op: Digest, inputs: seq<InputRef>) returns (e: Option<Failure>)
      ensures e == InputsError(env, mode, Abstract(), o, op, inputs)
    {
      hide InputError;
      for i := 0 to |inputs|
        invariant InputsError(env, mode, Abstract(), o, op, inputs) == InputsError(env, mode, Abstract(), o, op, inputs[i..])
      {
        assert inputs[i..][1..] == inputs[i + 1..] && inputs[i..][0] == inputs[i];
        e := CheckInput(o, op, inputs[i]);
        if e.Some? {
          return e;
        }
      }
      return None;
    }

    /** Inputs leave the live states and become consumed. */
    method Consume(inputs: seq<InputRef>)
      modifies this`states, this`consumed
      ensures states == old(states) - Elements(inputs)
      ensures consumed == old(consumed) + Elements(inputs)
    {
      for i := 0 to |inputs|
        invariant states == old(states) - Elements(inputs[..i])
        invariant consumed == old(consumed) + Elements(inputs[..i])
      {
        ElementsMore(inputs, i);
        consumed := consumed + {inputs[i]};
        states := states - {inputs[i]};
      }
      assert inputs[..|inputs|] == inputs;
    }

    method ApplyTransition(o: Opened, t: Transition) returns (e: Option<Failure>)
      requires Told()
      modifies this`states, this`consumed, this`graph, this`bundleOps, this`globals, this`log, collector
      ensures e.None? ==> Apply(env, mode, contract, old(Abstract()), o, t) == Ok(Abstract()) && Told()
      ensures e.Some? ==> Apply(env, mode, contract, old(Abstract()), o, t) == Err(e.value)
    {
      hide TransitionId, Validated, Register, InputsError, Append, WitnessStates, Consumptions;
      var commitment := CommitTransition(t);
      if commitment.Err? {
        return Some(Uncommitted(commitment.error));
      }
      var op := commitment.value;
      e := CheckInputs(o, op, t.inputs);
      if e.Some? {
        return e;
      }
      var validation := ValidateTransition(env.schema, env.types, t, Context(contract, globals), Resolution(states));
      if validation.Err? {
        return Some(Refused(validation.error));
      }
      AllLive(env, mode, Abstract(), o, op, t.inputs);
      ghost var entered := Event(op, t, o, Spent(states, t.inputs));
      if mode.collecting {
        collector.RecordConsumption(t.inputs, states, op, o);
        LogGrows(log, entered);
      }
      Consume(t.inputs);
      e := RegisterOutputs(op, t.assignments, o.closer.txid);
      if e.Some? {
        return e;
      }
      AppendOperationGlobals(t.globals);
      graph := graph[op := Node(o.id, Sources(t.inputs))];
      bundleOps := bundleOps[o.id := OpsOf(bundleOps, o.id) + [op]];
      log := log + [entered];
      return None;
    }

    /** The transitions of one bundle, and whether they are all that it commits to. */
    method ApplyBundle(o: Opened) returns (e: Option<Failure>)
      requires Told()
      modifies this, collector
      ensures e.None? ==> Told() && Replay(env, mode, contract, old(Abstract()), StepsOf(o, o.transitions)).Ok?
      ensures e.None? ==> Now() == Close(old(Now()), Replay(env, mode, contract, old(Abstract()), StepsOf(o, o.transitions)).value, o)
      ensures e.Some? ==> Replay(env, mode, contract, old(Abstract()), StepsOf(o, o.transitions)) == Err(e.value)
    {
      hide Apply, TransitionId;
      if o.closer.state.Prepared? {
        prepared := prepared[o.closer.txid := o.closer.tx];
      }
      ghost var steps := StepsOf(o, o.transitions);
      var verified: set<Digest> := {};
      for i := 0 to |o.transitions|
        invariant Told() && complete == old(complete)
        invariant prepared == if o.closer.state.Prepared? then old(prepared)[o.closer.txid := o.closer.tx] else old(prepared)
        invariant Replay(env, mode, contract, old(Abstract()), steps) == Replay(env, mode, contract, Abstract(), steps[i..])
        invariant verified == Ids(o.transitions[..i])
      {
        assert steps[i..][1..] == steps[i + 1..] && steps[i..][0] == Step(o, o.transitions[i]);
        e := ApplyTransition(o, o.transitions[i]);
        if e.Some? {
          return e;
        }
        IdsMore(o.transitions, i);
        verified := verified + {TransitionId(o.transitions[i])};
      }
      assert o.transitions[..|o.transitions|] == o.transitions;
      if |verified| != |o.ops| {
        complete := false;
      }
      return None;
    }

    method ApplyBundles(bundles: seq<WitnessBundle>) returns (e: Option<Failure>)
      requires Told()
      modifies this, collector
      ensures e.None? ==> Told() && RunBundles(env, mode, contract, bundles, old(Now())) == Ok(Now())
      ensures e.Some? ==> RunBundles(env, mode, contract, bundles, old(Now())) == Err(e.value)
    {
      hide Open, Replay, Close;
      for i := 0 to |bundles|
        invariant Told()
        invariant RunBundles(env, mode, contract, bundles, old(Now())) == RunBundles(env, mode, contract, bundles[i..], Now())
      {
        assert bundles[i..][1..] == bundles[i + 1..] && bundles[i..][0] == bundles[i];
        var o := OpenBundle(env, mode.allowPrepared, contract, bundles[i]);
        if o.Err? {
          return Some(o.error);
        }
        e := ApplyBundle(o.value);
        if e.Some? {
          return e;
        }
      }
      return None;
    }
  }

  lemma {:induction false} ElementsMore(inputs: seq<InputRef>, i: nat)
    requires i < |inputs|
    ensures Elements(inputs[..i + 1]) == Elements(inputs[..i]) + {inputs[i]}
  {
    assert inputs[..i + 1] == inputs[..i] + [inputs[i]];
  }

  lemma {:induction false} IdsMore(ts: seq<Transition>, i: nat)
    requires i < |ts|
    ensures Ids(ts[..i + 1]) == Ids(ts[..i]) + {TransitionId(ts[i])}
  {
    hide TransitionId;
    assert ts[..i + 1] == ts[..i] + [ts[i]];
  }

  lemma {:induction false} AllLive(env: Env, mode: Mode, l: Ledger, o: Opened, op: Digest, inputs: seq<InputRef>)
    requires InputsError(env, mode, l, o, op, inputs) == None
    ensures forall i :: 0 <= i < |inputs| ==> inputs[i] in l.states
  {
    InputsAccepted(env, mode, l, o, op, inputs);
    forall i | 0 <= i < |inputs| ensures inputs[i] in l.states {
      assert InputAccepted(l, o, op, inputs[i]);
    }
  }
}
