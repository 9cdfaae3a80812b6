/** The history validator, as the state it reaches after every step. */
module Validator {
  import opened Anchor
  import opened Bytes
  import opened Catalog
  import opened Collections
  import opened Operations
  import opened Schemas
  import opened Symbols
  import opened Wrappers
  import Mpc

  datatype Failure =
    | ContainerType
    | Uncommitted(bundle: Operations.Error)
    | BadAnchor
    | WitnessUnresolved | WitnessArchived | WitnessMismatch
    | InputMapMismatch | DuplicateStateSpend | SealNotClosed
    | OutpointUnknown | OutpointSpend
    | Refused(refusal: Refusal)

  // ----- bitcoin facts

  datatype WitnessState = NoState | Tentative | Mined | Archived | Prepared

  datatype RawTx = Absent | Garbage | Parsed(tx: Tx)

  datatype Evidence = Evidence(raw: RawTx, state: WitnessState)

  datatype OutpointEvidence = OutpointEvidence(known: bool, present: bool, spent: bool, spender: Option<Digest>)

  /** Chain facts: one answer per transaction and per outpoint; None is a failed lookup. */
  datatype Resolver = Resolver(evidence: Digest -> Option<Evidence>, outpoint: Outpoint -> Option<OutpointEvidence>)

  /** A witness is embedded, when its fields make a transaction, or named. Of an embedded
      one the encoding is kept too: input scripts and signatures are in no id. */
  datatype PubWitness = Embedded(encoded: Data, embedded: Option<Tx>) | Named(txid: Digest)

  datatype Witness = Witness(tx: Tx, txid: Digest, state: WitnessState)

  /** An embedded transaction the chain does not confirm, in prepared mode. */
  function Unbroadcast(p: PubWitness, allowPrepared: bool): Result<Witness, Failure> {
    if allowPrepared && p.Embedded? && p.embedded.Some? then Ok(Witness(p.embedded.value, p.embedded.value.txid, Prepared))
    else Err(WitnessUnresolved)
  }

  function Resolved(p: PubWitness, resolver: Option<Resolver>, allowPrepared: bool): Result<Witness, Failure> {
    if p.Embedded? && p.embedded.None? then Err(WitnessUnresolved)
    else
      var expected := if p.Embedded? then p.embedded.value.txid else p.txid;
      if resolver.None? || resolver.value.evidence(expected).None? then Unbroadcast(p, allowPrepared)
      else
        var evidence := resolver.value.evidence(expected).value;
        if evidence.state.Archived? then Err(WitnessArchived)
        else if evidence.raw.Garbage? then Err(WitnessUnresolved)
        else if evidence.raw.Parsed? && evidence.raw.tx.txid != expected then Err(WitnessMismatch)
        else if !evidence.state.Tentative? && !evidence.state.Mined? then Unbroadcast(p, allowPrepared)
        else if evidence.raw.Absent? then Err(WitnessUnresolved)
        else Ok(Witness(evidence.raw.tx, expected, evidence.state))
  }

  // ----- consignments

  datatype WitnessBundle = WitnessBundle(pub: PubWitness, mpc: Mpc.Proof, dbc: DbcProof, bundle: Bundle)

  datatype Consignment = Consignment(genesis: Genesis, transfer: bool, terminals: seq<Digest>, bundles: seq<WitnessBundle>)

  datatype Env = Env(crypto: Crypto, resolver: Option<Resolver>, schema: Schema, types: Types)

  datatype Mode = Mode(allowPrepared: bool, historyOnly: bool, collecting: bool)

  /** A bundle whose commitment, witness and anchor have been checked. */
  datatype Opened = Opened(id: Digest, inputMap: seq<Commit>, ops: set<Digest>, transitions: seq<Transition>,
                           mpc: Mpc.Proof, dbc: DbcProof, closer: Witness)

  function Open(env: Env, allowPrepared: bool, contract: Digest, wb: WitnessBundle): Result<Opened, Failure> {
    match BundleOf(wb.bundle)
    case Err(e) => Err(Uncommitted(e))
    case Ok(b) =>
      if wb.mpc.position >= U32 || wb.mpc.cofactor >= U16 then Err(BadAnchor)
      else
        match Mpc.Convolution(env.crypto, wb.mpc, contract, b.id)
        case Err(_) => Err(BadAnchor)
        case Ok(commitment) =>
          var w :- Resolved(wb.pub, env.resolver, allowPrepared);
          if VerifyDBC(env.crypto, w.tx, wb.dbc, commitment).Err? then Err(BadAnchor)
          else Ok(Opened(b.id, wb.bundle.inputMap, b.inputOps, b.transitions, wb.mpc, wb.dbc, w))
  }

  // ----- the ledger

  /** A disclosed, unspent output and where it is sealed. */
  datatype Placed = Placed(state: State, outpoint: Outpoint, blinding: nat, pointer: bool, creator: Digest)

  datatype Node = Node(bundle: Digest, parents: seq<Digest>)

  /** An accepted transition: what it was validated against and what it spent. */
  datatype Event = Event(op: Digest, transition: Transition, host: Opened, spent: seq<Placed>)

  datatype Ledger = Ledger(states: map<InputRef, Placed>, consumed: set<InputRef>, graph: map<Digest, Node>,
                           bundleOps: map<Digest, seq<Digest>>, globals: Values, log: seq<Event>)

  /** The outpoint of a seal; a seal on the witness needs one. */
  function Placing(state: State, seal: Seal, txid: Digest): Result<Placed, Failure> {
    if seal.vout >= U32 then Err(SealNotClosed)
    else
      match seal
      case BlindSeal(sealed, vout, blinding) => Ok(Placed(state, Outpoint(sealed, vout), blinding, false, txid))
      case GraphSeal(TxId(sealed), vout, blinding) => Ok(Placed(state, Outpoint(sealed, vout), blinding, false, txid))
      case GraphSeal(WitnessTx, vout, blinding) =>
        if txid == ZERO then Err(SealNotClosed) else Ok(Placed(state, Outpoint(txid, vout), blinding, true, txid))
  }

  function Register(states: map<InputRef, Placed>, op: Digest, outputs: seq<Output>, txid: Digest): Result<map<InputRef, Placed>, Failure>
    decreases outputs
  {
    if outputs == [] then Ok(states)
    else
      var placed :- Placing(outputs[0].state, outputs[0].seal, txid);
      Register(states[InputRef(op, outputs[0].ty, outputs[0].no) := placed], op, outputs[1..], txid)
  }

  function Resolution(states: map<InputRef, Placed>): InputRef -> Option<State> {
    ref => if ref in states then Some(states[ref].state) else None
  }

  /** In prepared mode the input must still be there for the witness to spend. */
  function PreparedInputError(resolver: Option<Resolver>, outpoint: Outpoint, txid: Digest): Option<Failure> {
    if resolver.None? || resolver.value.outpoint(outpoint).None? then Some(OutpointUnknown)
    else
      var evidence := resolver.value.outpoint(outpoint).value;
      if !evidence.known || !evidence.present then Some(OutpointUnknown)
      else if evidence.spent && evidence.spender != Some(txid) then Some(OutpointSpend)
      else None
  }

  function InputError(env: Env, mode: Mode, l: Ledger, o: Opened, op: Digest, input: InputRef): Option<Failure> {
    if !InputMapCommits(o.inputMap, input, op) then Some(InputMapMismatch)
    else if input in l.consumed then Some(DuplicateStateSpend)
    else if input !in l.states then Some(Refused(Unresolved))
    else if !TxSpends(o.closer.tx, l.states[input].outpoint) then Some(SealNotClosed)
    else if o.closer.state.Prepared? && !(mode.historyOnly && mode.collecting)
      then PreparedInputError(env.resolver, l.states[input].outpoint, o.closer.txid)
    else None
  }

  function InputsError(env: Env, mode: Mode, l: Ledger, o: Opened, op: Digest, inputs: seq<InputRef>): Option<Failure> {
    if inputs == [] then None
    else if InputError(env, mode, l, o, op, inputs[0]).Some? then InputError(env, mode, l, o, op, inputs[0])
    else InputsError(env, mode, l, o, op, inputs[1..])
  }

  function Sources(inputs: seq<InputRef>): (r: seq<Digest>)
    ensures |r| == |inputs|
    ensures forall i :: 0 <= i < |r| ==> r[i] == inputs[i].op
  {
    if inputs == [] then [] else [inputs[0].op] + Sources(inputs[1..])
  }

  /** The outputs the inputs name, those that are live. */
  function Spent(states: map<InputRef, Placed>, inputs: seq<InputRef>): seq<Placed> {
    if inputs == [] then []
    else (if inputs[0] in states then [states[inputs[0]]] else []) + Spent(states, inputs[1..])
  }

  function OpsOf(bundleOps: map<Digest, seq<Digest>>, bundle: Digest): seq<Digest> {
    if bundle in bundleOps then bundleOps[bundle] else []
  }

  /** One transition of a bundle. */
  function Apply(env: Env, mode: Mode, contract: Digest, l: Ledger, o: Opened, t: Transition): Result<Ledger, Failure> {
    if t.inputs == [] then Err(Uncommitted(InvalidTransition))
    else
      var op := TransitionId(t);
      if InputsError(env, mode, l, o, op, t.inputs).Some? then Err(InputsError(env, mode, l, o, op, t.inputs).value)
      else
        match Validated(env.schema, env.types, t, Context(contract, l.globals), Resolution(l.states))
        case Err(e) => Err(Refused(e))
        case Ok(_) =>
          var states :- Register(l.states - Elements(t.inputs), op, RevealedOutputs(t.assignments), o.closer.txid);
          Ok(Ledger(states, l.consumed + Elements(t.inputs), l.graph[op := Node(o.id, Sources(t.inputs))],
                    l.bundleOps[o.id := OpsOf(l.bundleOps, o.id) + [op]], AppendGlobals(l.globals, t.globals),
                    l.log + [Event(op, t, o, Spent(l.states, t.inputs))]))
  }

  // ----- runs

  datatype Step = Step(host: Opened, transition: Transition)

  function Replay(env: Env, mode: Mode, contract: Digest, l: Ledger, steps: seq<Step>): Result<Ledger, Failure>
    decreases steps
  {
    if steps == [] then Ok(l)
    else
      var next :- Apply(env, mode, contract, l, steps[0].host, steps[0].transition);
      Replay(env, mode, contract, next, steps[1..])
  }

  function StepsOf(o: Opened, ts: seq<Transition>): (steps: seq<Step>)
    ensures |steps| == |ts|
    ensures forall i :: 0 <= i < |ts| ==> steps[i] == Step(o, ts[i])
  {
    if ts == [] then [] else [Step(o, ts[0])] + StepsOf(o, ts[1..])
  }

  function Ids(ts: seq<Transition>): set<Digest> {
    set t | t in ts :: TransitionId(t)
  }

  datatype Run = Run(ledger: Ledger, prepared: map<Digest, Tx>, complete: bool)

  /** After a bundle: its witness may be prepared, and the graph stays complete
      when every committed operation was disclosed. */
  function Close(r: Run, l: Ledger, o: Opened): Run {
    Run(l, if o.closer.state.Prepared? then r.prepared[o.closer.txid := o.closer.tx] else r.prepared,
        r.complete && |Ids(o.transitions)| == |o.ops|)
  }

  function RunBundles(env: Env, mode: Mode, contract: Digest, bundles: seq<WitnessBundle>, r: Run): Result<Run, Failure>
    decreases bundles
  {
    if bundles == [] then Ok(r)
    else
      var o :- Open(env, mode.allowPrepared, contract, bundles[0]);
      var l :- Replay(env, mode, contract, r.ledger, StepsOf(o, o.transitions));
      RunBundles(env, mode, contract, bundles[1..], Close(r, l, o))
  }

  /** The state after genesis: its disclosed outputs and its globals. */
  function Start(g: Genesis): Result<Ledger, Failure> {
    var states :- Register(map[], GenesisId(g), RevealedOutputs(g.assignments), ZERO);
    Ok(Ledger(states, {}, map[GenesisId(g) := Node(ZERO, [])], map[], AppendGlobals(map[], g.globals), []))
  }

  function RunAll(env: Env, mode: Mode, c: Consignment): Result<Run, Failure> {
    if GenesisError(env.schema, env.types, c.genesis).Some? then Err(ContainerType)
    else
      var l :- Start(c.genesis);
      RunBundles(env, mode, GenesisId(c.genesis), c.bundles, Run(l, map[], true))
  }

  // ----- a run is a replay

  /** All steps of the bundles, in order. */
  function AllSteps(env: Env, mode: Mode, contract: Digest, bundles: seq<WitnessBundle>): seq<Step> {
    if bundles == [] || Open(env, mode.allowPrepared, contract, bundles[0]).Err? then []
    else
      var o := Open(env, mode.allowPrepared, contract, bundles[0]).value;
      StepsOf(o, o.transitions) + AllSteps(env, mode, contract, bundles[1..])
  }

  lemma {:induction false} ReplayConcat(env: Env, mode: Mode, contract: Digest, l: Ledger, a: seq<Step>, b: seq<Step>)
    ensures Replay(env, mode, contract, l, a + b) ==
            if Replay(env, mode, contract, l, a).Err? then Replay(env, mode, contract, l, a)
            else Replay(env, mode, contract, Replay(env, mode, contract, l, a).value, b)
    decreases a
  {
    hide Apply;
    if a == [] {
      assert a + b == b;
    } else {
      assert (a + b)[1..] == a[1..] + b;
      var next := Apply(env, mode, contract, l, a[0].host, a[0].transition);
      if next.Ok? {
        ReplayConcat(env, mode, contract, next.value, a[1..], b);
      }
    }
  }

  /** An accepted run replays the transitions of its bundles one after another. */
  lemma {:induction false} RunReplays(env: Env, mode: Mode, contract: Digest, bundles: seq<WitnessBundle>, r: Run)
    requires RunBundles(env, mode, contract, bundles, r).Ok?
    ensures Replay(env, mode, contract, r.ledger, AllSteps(env, mode, contract, bundles)) ==
            Ok(RunBundles(env, mode, contract, bundles, r).value.ledger)
    decreases bundles
  {
    hide Apply, Open;
    if bundles != [] {
      var o := Open(env, mode.allowPrepared, contract, bundles[0]).value;
      var l := Replay(env, mode, contract, r.ledger, StepsOf(o, o.transitions)).value;
      RunReplays(env, mode, contract, bundles[1..], Close(r, l, o));
      ReplayConcat(env, mode, contract, r.ledger, StepsOf(o, o.transitions), AllSteps(env, mode, contract, bundles[1..]));
    }
  }

  /** Every prefix of an accepted history is accepted. */
  lemma {:induction false} PrefixAccepted(env: Env, mode: Mode, contract: Digest, l: Ledger, steps: seq<Step>, k: nat)
    requires k <= |steps| && Replay(env, mode, contract, l, steps).Ok?
    ensures Replay(env, mode, contract, l, steps[..k]).Ok?
  {
    assert steps == steps[..k] + steps[k..];
    ReplayConcat(env, mode, contract, l, steps[..k], steps[k..]);
  }
}
