/** Disclosing more of an accepted history keeps it accepted. */
module Redisclosure {
  import opened Agreement
  import opened Anchor
  import opened Balance
  import opened Bytes
  import opened Catalog
  import opened Collections
  import opened Commitments
  import opened Conservation
  import opened Merge
  import opened Operations
  import opened Outputs
  import opened Safety
  import opened SchemaAccepts
  import opened Schemas
  import opened SchemaTotals
  import opened Symbols
  import opened Validator
  import opened Wrappers
  import Mpc

  // ----- more disclosed of one transition

  /** The first list commits to the second and reveals what it reveals. */
  ghost predicate MoreEntries(es: seq<Entry>, fs: seq<Entry>) {
    && ConcealedEntries(es) == ConcealedEntries(fs)
    && forall ty: nat, no: nat :: IsRevealed(fs, ty, no) ==> IsRevealed(es, ty, no) && Of(es, ty)[no] == Of(fs, ty)[no]
  }

  /** The same transition with more of its seals disclosed. */
  ghost predicate MoreOf(t: Transition, u: Transition) {
    t == u.(assignments := t.assignments) && MoreEntries(t.assignments, u.assignments)
  }

  /** Every disclosed seal has a place when the closing transaction is `txid`. */
  ghost predicate PlacesAll(es: seq<Entry>, txid: Digest) {
    forall ty: nat, no: nat :: IsRevealed(es, ty, no) ==> Placing(Of(es, ty)[no].state, Of(es, ty)[no].seal, txid).Ok?
  }

  lemma {:induction false} RegisterEach(states: map<InputRef, Placed>, op: Digest, outs: seq<Output>, txid: Digest)
    requires forall x :: x in outs ==> Placing(x.state, x.seal, txid).Ok?
    ensures Register(states, op, outs, txid).Ok?
    decreases outs
  {
    hide Placing;
    if outs != [] {
      assert outs[0] in outs;
      var placed := Placing(outs[0].state, outs[0].seal, txid).value;
      assert forall x :: x in outs[1..] ==> x in outs;
      RegisterEach(states[InputRef(op, outs[0].ty, outs[0].no) := placed], op, outs[1..], txid);
    }
  }

  /** Registering succeeds exactly when every disclosed seal has a place. */
  lemma {:induction false} RegisterExactly(states: map<InputRef, Placed>, op: Digest, es: seq<Entry>, txid: Digest)
    requires Increases(es)
    ensures Register(states, op, RevealedOutputs(es), txid).Ok? <==> PlacesAll(es, txid)
  {
    hide Placing, Register;
    var outs := RevealedOutputs(es);
    if PlacesAll(es, txid) {
      forall x | x in outs ensures Placing(x.state, x.seal, txid).Ok? {
        RevealedOutputsHas(es, x);
        assert IsRevealed(es, x.ty, x.no);
      }
      RegisterEach(states, op, outs, txid);
    }
    if Register(states, op, outs, txid).Ok? {
      RevealedOutputsDistinct(es);
      forall ty: nat, no: nat | IsRevealed(es, ty, no) ensures Placing(Of(es, ty)[no].state, Of(es, ty)[no].seal, txid).Ok? {
        var x := Output(ty, no, Of(es, ty)[no].state, Of(es, ty)[no].seal);
        RevealedOutputsHas(es, x);
        var i :| 0 <= i < |outs| && outs[i] == x;
        RegisterValues(states, op, outs, txid, i);
      }
    }
  }

  // ----- validation does not look at seals

  lemma {:induction false} ConcealedHead(a: seq<Assignment>, b: seq<Assignment>)
    requires ConcealedAll(a) == ConcealedAll(b) && a != []
    ensures b != [] && a[0].state == b[0].state && ConcealedAll(a[1..]) == ConcealedAll(b[1..])
  {
    assert |ConcealedAll(a)| == |ConcealedAll(b)|;
    assert ConcealedAll(a)[0] == Concealed(a[0]) && ConcealedAll(b)[0] == Concealed(b[0]);
    assert ConcealedAll(a[1..]) == ConcealedAll(a)[1..] && ConcealedAll(b[1..]) == ConcealedAll(b)[1..];
  }

  /** The effect of one state on the totals. */
  function TallyOne(types: Types, ty: nat, kind: Class, state: State, acc: Owned): Option<Owned> {
    match state
    case Declarative => if kind != DeclarativeClass then None else Some(acc)
    case Fungible(amount) =>
      if kind != FungibleClass || U64 - 1 - acc.sum < amount then None else Some(acc.(sum := acc.sum + amount))
    case Structured(data) =>
      if kind != StructuredClass || !types.owned(ty, data) then None else Some(acc.(raw := acc.raw + [data]))
  }

  lemma {:induction false} TallyUnfolds(types: Types, ty: nat, kind: Class, a: seq<Assignment>, acc: Owned)
    requires a != []
    ensures Tally(types, ty, kind, a, acc) ==
            match TallyOne(types, ty, kind, a[0].state, acc)
            case None => Err(StateType)
            case Some(next) => Tally(types, ty, kind, a[1..], next)
  {
  }

  lemma {:induction false} TallySame(types: Types, ty: nat, kind: Class, a: seq<Assignment>, b: seq<Assignment>, acc: Owned)
    requires ConcealedAll(a) == ConcealedAll(b)
    ensures Tally(types, ty, kind, a, acc) == Tally(types, ty, kind, b, acc)
  {
    assert |ConcealedAll(a)| == |ConcealedAll(b)|;
    if a != [] {
      hide ConcealedAll, Tally, TallyOne;
      ConcealedHead(a, b);
      TallyUnfolds(types, ty, kind, a, acc);
      TallyUnfolds(types, ty, kind, b, acc);
      var next := TallyOne(types, ty, kind, a[0].state, acc);
      if next.Some? {
        TallySame(types, ty, kind, a[1..], b[1..], next.value);
      }
    }
  }

  lemma {:induction false} EntrySame(s: Schema, types: Types, bounds: map<nat, Occurrence>, e: Entry, f: Entry)
    requires e.ty == f.ty && e.kind == f.kind && ConcealedAll(e.assigns) == ConcealedAll(f.assigns)
    ensures EntryTotals(s, types, bounds, e) == EntryTotals(s, types, bounds, f)
  {
    hide Tally;
    assert |ConcealedAll(e.assigns)| == |ConcealedAll(f.assigns)|;
    TallySame(types, e.ty, e.kind, e.assigns, f.assigns, Owned(|e.assigns|, 0, []));
  }

  lemma {:induction false} TotalsSame(s: Schema, types: Types, bounds: map<nat, Occurrence>, es: seq<Entry>, fs: seq<Entry>, acc: map<nat, Owned>)
    requires ConcealedEntries(es) == ConcealedEntries(fs)
    ensures TotalsFrom(s, types, bounds, es, acc) == TotalsFrom(s, types, bounds, fs, acc)
  {
    hide EntryTotals, ConcealedAll;
    assert |ConcealedEntries(es)| == |ConcealedEntries(fs)|;
    if es != [] {
      assert ConcealedEntries(es)[0] == ConcealedEntries(fs)[0];
      EntrySame(s, types, bounds, es[0], fs[0]);
      assert ConcealedEntries(es[1..]) == ConcealedEntries(es)[1..] && ConcealedEntries(fs[1..]) == ConcealedEntries(fs)[1..];
      if EntryTotals(s, types, bounds, es[0]).Ok? {
        TotalsSame(s, types, bounds, es[1..], fs[1..], acc[es[0].ty := EntryTotals(s, types, bounds, es[0]).value]);
      }
    }
  }

  lemma {:induction false} InputsSame(s: Schema, bounds: map<nat, Occurrence>, a: InputRef -> Option<State>, b: InputRef -> Option<State>,
                                      inputs: seq<InputRef>, acc: Inputs)
    requires forall r :: r in inputs ==> a(r) == b(r)
    ensures InputsFrom(s, bounds, a, inputs, acc) == InputsFrom(s, bounds, b, inputs, acc)
  {
    if inputs != [] {
      assert inputs[0] in inputs;
      assert AddInput(s, bounds, a, inputs[0], acc) == AddInput(s, bounds, b, inputs[0], acc);
      hide AddInput;
      if AddInput(s, bounds, a, inputs[0], acc).Ok? {
        InputsSame(s, bounds, a, b, inputs[1..], AddInput(s, bounds, a, inputs[0], acc).value);
      }
    }
  }

  /** A permissioned schema keeps its key: no transition may declare another one. */
  predicate SteadyKey(s: Schema) {
    ByID(s) == Some(PFA) ==> forall ty :: ty in s.transitions ==> PERMISSION_KEY !in s.transitions[ty].globals
  }

  /** Two contexts in which the schema's script says the same. */
  predicate SameContext(s: Schema, c: Context, d: Context) {
    c.contract == d.contract && (ByID(s) == Some(PFA) ==> Lookup(c.globals, PERMISSION_KEY) == Lookup(d.globals, PERMISSION_KEY))
  }

  lemma {:induction false} ScriptSame(s: Schema, types: Types, t: Transition, u: Transition, op: Digest, c: Context, d: Context, checked: Checked)
    requires ByID(s).Some? && SameContext(s, c, d) && MoreOf(t, u)
    ensures ScriptError(ByID(s).value, types, t, op, c, checked) == ScriptError(ByID(s).value, types, u, op, d, checked)
  {
    hide ByID, Inflates, Burns, MovesToken, MovesAll, At, Lookup, MoreEntries;
  }

  lemma {:induction false} SameId(t: Transition, u: Transition)
    requires MoreOf(t, u)
    ensures TransitionId(t) == TransitionId(u) && t.inputs == u.inputs && CommitTransition(t) == CommitTransition(u)
  {
    hide TransitionId, MoreEntries;
    assert Public(t) == Public(u) by { PublicMore(t, u); }
    PublicIsSame(t, u);
  }

  lemma {:induction false} PublicMore(t: Transition, u: Transition)
    requires MoreOf(t, u)
    ensures Public(t) == Public(u)
  {
    hide IsRevealed, ConcealedEntries;
  }

  /** A more disclosed transition with the same inputs is judged the same. */
  lemma {:induction false} ValidatedSame(s: Schema, types: Types, t: Transition, u: Transition, c: Context, d: Context,
                                         a: InputRef -> Option<State>, b: InputRef -> Option<State>)
    requires MoreOf(t, u) && SameContext(s, c, d) && forall r :: r in u.inputs ==> a(r) == b(r)
    ensures Validated(s, types, t, c, a) == Validated(s, types, u, d, b)
  {
    hide ByID, ScriptError, TransitionId, GlobalsOf, MetadataError, MetadataAmounts, InputsFrom, TotalsFrom, SameContext, CommitTransition;
    SameId(t, u);
    assert t.ty == u.ty && t.contractId == u.contractId && t.metadata == u.metadata && t.globals == u.globals;
    assert ConcealedEntries(t.assignments) == ConcealedEntries(u.assignments);
    hide MoreOf;
    if t.ty in s.transitions {
      var op := s.transitions[t.ty];
      TotalsSame(s, types, op.assignments, t.assignments, u.assignments, map[]);
      InputsSame(s, op.inputs, a, b, t.inputs, Inputs(map[], map[], map[]));
      assert Conforming(s, types, t, a) == Conforming(s, types, u, b);
      hide Conforming;
      assert c.contract == d.contract by { ContractSame(s, c, d); }
      if ByID(s).Some? && CommitTransition(t).Ok? && Conforming(s, types, t, a).Ok? {
        ScriptSame(s, types, t, u, CommitTransition(t).value, c, d, Conforming(s, types, t, a).value);
      }
    }
    assert c.contract == d.contract by { ContractSame(s, c, d); }
  }

  lemma {:induction false} ContractSame(s: Schema, c: Context, d: Context)
    requires SameContext(s, c, d)
    ensures c.contract == d.contract
  {
  }

  // ----- one step

  /** The same bundle, opened from a fuller disclosure. */
  ghost predicate SameHost(a: Opened, b: Opened) {
    a.id == b.id && a.inputMap == b.inputMap && a.closer == b.closer
  }

  /** What a step takes is there in another ledger too. */
  ghost predicate InputsThere(u: Transition, l: Ledger, m: Ledger) {
    forall r :: r in u.inputs && r in l.states ==> r in m.states && m.states[r] == l.states[r] && r !in m.consumed
  }

  lemma {:induction false} InputsStillPass(env: Env, mode: Mode, l: Ledger, m: Ledger, a: Opened, b: Opened, op: Digest, inputs: seq<InputRef>)
    requires SameHost(a, b) && !b.closer.state.Prepared? && InputsError(env, mode, l, b, op, inputs) == None
    requires forall r :: r in inputs && r in l.states ==> r in m.states && m.states[r] == l.states[r] && r !in m.consumed
    ensures InputsError(env, mode, m, a, op, inputs) == None
  {
    if inputs != [] {
      assert inputs[0] in inputs;
      assert forall r :: r in inputs[1..] ==> r in inputs;
      InputsStillPass(env, mode, l, m, a, b, op, inputs[1..]);
    }
  }

  /** A step accepted in one ledger, with more disclosed, in a ledger that has its inputs. */
  lemma {:induction false} StepCarries(env: Env, mode: Mode, contract: Digest, l: Ledger, m: Ledger, a: Opened, b: Opened, t: Transition, u: Transition)
    requires Apply(env, mode, contract, l, b, u).Ok? && CanonicalTransition(t)
    requires MoreOf(t, u) && SameHost(a, b) && !b.closer.state.Prepared? && InputsThere(u, l, m)
    requires PlacesAll(t.assignments, b.closer.txid)
    requires SameContext(env.schema, Context(contract, m.globals), Context(contract, l.globals))
    ensures Apply(env, mode, contract, m, a, t).Ok?
  {
    hide TransitionId, Validated, Register, InputsError, CanonicalTransition, MoreOf, SameContext;
    SameId(t, u);
    var op := TransitionId(t);
    InputsStillPass(env, mode, l, m, a, b, op, u.inputs);
    Applied(env, mode, contract, l, b, u);
    forall r | r in u.inputs ensures Resolution(m.states)(r) == Resolution(l.states)(r) {
      var i :| 0 <= i < |u.inputs| && u.inputs[i] == r;
      assert InputAccepted(l, b, TransitionId(u), u.inputs[i]);
    }
    ValidatedSame(env.schema, env.types, t, u, Context(contract, m.globals), Context(contract, l.globals), Resolution(m.states), Resolution(l.states));
    TransitionIncreases(t);
    RegisterExactly(m.states - Elements(t.inputs), op, t.assignments, a.closer.txid);
  }

  // ----- lockstep

  /** The second ledger's live outputs are live in the first, and the same is consumed. */
  ghost predicate Covers(s: Schema, contract: Digest, m: Ledger, l: Ledger) {
    && m.consumed == l.consumed
    && (forall r :: r in l.states ==> r in m.states && m.states[r] == l.states[r])
    && SameContext(s, Context(contract, m.globals), Context(contract, l.globals))
  }

  lemma {:induction false} ContextAfter(s: Schema, contract: Digest, m: Values, l: Values, gs: seq<Global>)
    requires SameContext(s, Context(contract, m), Context(contract, l)) && GlobalsIncrease(gs)
    ensures SameContext(s, Context(contract, AppendGlobals(m, gs)), Context(contract, AppendGlobals(l, gs)))
  {
    hide AppendGlobals, Lookup, ByID;
    Appended(m, gs, PERMISSION_KEY);
    Appended(l, gs, PERMISSION_KEY);
  }

  /** A new output is where its disclosed assignment says. */
  lemma {:induction false} SamePlaced(e: Event, f: Event, ref: InputRef, p: Placed, q: Placed)
    requires Makes(e, ref, p) && Makes(f, ref, q) && e.host.closer == f.host.closer && MoreOf(e.transition, f.transition)
    ensures p == q
  {
    hide Placing, TransitionId, Of;
  }

  lemma {:induction false} StatesCovered(env: Env, mode: Mode, g: Genesis, l: Ledger, m: Ledger, a: Opened, b: Opened, t: Transition, u: Transition, r: InputRef)
    requires Safe(g, l) && Safe(g, m) && CanonicalTransition(t) && CanonicalTransition(u) && MoreOf(t, u) && SameHost(a, b)
    requires Apply(env, mode, GenesisId(g), l, b, u).Ok? && Apply(env, mode, GenesisId(g), m, a, t).Ok?
    requires Covers(env.schema, GenesisId(g), m, l) && r in Apply(env, mode, GenesisId(g), l, b, u).value.states
    ensures var x, y := Apply(env, mode, GenesisId(g), l, b, u).value, Apply(env, mode, GenesisId(g), m, a, t).value;
            r in y.states && y.states[r] == x.states[r]
  {
    hide TransitionId, GenesisId, Apply, Safe, CanonicalTransition, SameContext, Makes, Of;
    SameId(t, u);
    LiveAfter(env, mode, g, l, b, u, r);
    LiveAfter(env, mode, g, m, a, t, r);
    if r.op == TransitionId(t) {
      SamePlaced(Entered(m, a, t), Entered(l, b, u), r, Apply(env, mode, GenesisId(g), m, a, t).value.states[r],
                 Apply(env, mode, GenesisId(g), l, b, u).value.states[r]);
    }
  }

  /** One step in both ledgers. */
  lemma {:induction false} StepCovered(env: Env, mode: Mode, g: Genesis, l: Ledger, m: Ledger, a: Opened, b: Opened, t: Transition, u: Transition)
    requires Safe(g, l) && Safe(g, m) && CanonicalTransition(t) && CanonicalTransition(u) && MoreOf(t, u) && SameHost(a, b)
    requires !b.closer.state.Prepared? && PlacesAll(t.assignments, b.closer.txid)
    requires Apply(env, mode, GenesisId(g), l, b, u).Ok? && Covers(env.schema, GenesisId(g), m, l)
    ensures Apply(env, mode, GenesisId(g), m, a, t).Ok?
    ensures var x, y := Apply(env, mode, GenesisId(g), l, b, u).value, Apply(env, mode, GenesisId(g), m, a, t).value;
            Safe(g, x) && Safe(g, y) && Covers(env.schema, GenesisId(g), y, x)
  {
    hide TransitionId, GenesisId, Apply, Safe, CanonicalTransition, SameContext, MoreEntries;
    var contract := GenesisId(g);
    assert InputsThere(u, l, m) by { ApartLedger(g, l); }
    StepCarries(env, mode, contract, l, m, a, b, t, u);
    var x, y := Apply(env, mode, contract, l, b, u).value, Apply(env, mode, contract, m, a, t).value;
    KeepsSafe(env, mode, g, l, b, u);
    KeepsSafe(env, mode, g, m, a, t);
    Applied(env, mode, contract, l, b, u);
    Applied(env, mode, contract, m, a, t);
    TransitionGlobals(u);
    ContextAfter(env.schema, contract, m.globals, l.globals, u.globals);
    forall r | r in x.states ensures r in y.states && y.states[r] == x.states[r] {
      StatesCovered(env, mode, g, l, m, a, b, t, u, r);
    }
  }

  lemma {:induction false} ApartLedger(g: Genesis, l: Ledger)
    requires Safe(g, l)
    ensures forall r :: r in l.states ==> r !in l.consumed
  {
    hide GenesisId, SoundLog, Graphed, Traced, Bundled;
  }

  // ----- bundles

  ghost predicate MoreKnown(a: seq<Known>, b: seq<Known>) {
    |a| == |b| && forall k :: 0 <= k < |a| ==> a[k].declared == b[k].declared && MoreOf(a[k].transition, b[k].transition)
  }

  /** The same bundle with more of its seals disclosed. */
  ghost predicate MoreBundle(a: WitnessBundle, b: WitnessBundle) {
    && a.pub == b.pub && a.mpc == b.mpc && a.dbc == b.dbc && a.bundle.inputMap == b.bundle.inputMap
    && MoreKnown(a.bundle.known, b.bundle.known)
  }

  /** The id a witness is looked up under. */
  function TxidOf(p: PubWitness): Digest {
    if p.Embedded? && p.embedded.Some? then p.embedded.value.txid else if p.Named? then p.txid else ZERO
  }

  ghost predicate Sealable(known: seq<Known>, txid: Digest) {
    forall k :: 0 <= k < |known| ==> PlacesAll(known[k].transition.assignments, txid)
  }

  lemma {:induction false} OpensUnder(env: Env, contract: Digest, wb: WitnessBundle)
    requires Open(env, false, contract, wb).Ok?
    ensures var o := Open(env, false, contract, wb).value;
            && o.closer.txid == TxidOf(wb.pub) && !o.closer.state.Prepared? && o.id == BundleId(wb.bundle.inputMap)
            && o.inputMap == wb.bundle.inputMap && o.transitions == Transitions(wb.bundle.known)
            && Resolved(wb.pub, env.resolver, false) == Ok(o.closer)
  {
    hide BundleId, VerifyDBC, Mpc.Convolution, KnownError, Resolved;
    ResolvedMeans(wb.pub, env.resolver, false);
  }

  lemma {:induction false} SameKnownError(a: seq<Known>, b: seq<Known>, ops: set<Digest>)
    requires MoreKnown(a, b)
    ensures KnownError(a, ops) == KnownError(b, ops)
  {
    hide TransitionId, MoreOf;
    if a != [] {
      SameId(a[0].transition, b[0].transition);
      assert forall k :: 0 <= k < |a[1..]| ==> a[1..][k] == a[k + 1] && b[1..][k] == b[k + 1];
      SameKnownError(a[1..], b[1..], ops);
    }
  }

  lemma {:induction false} MoreOpens(env: Env, contract: Digest, a: WitnessBundle, b: WitnessBundle)
    requires MoreBundle(a, b) && Open(env, false, contract, b).Ok?
    ensures Open(env, false, contract, a).Ok? && SameHost(Open(env, false, contract, a).value, Open(env, false, contract, b).value)
  {
    hide BundleId, VerifyDBC, Mpc.Convolution, KnownError, Resolved, MoreOf;
    SameKnownError(a.bundle.known, b.bundle.known, InputOps(a.bundle.inputMap));
  }

  lemma {:induction false} KnownCovered(env: Env, mode: Mode, g: Genesis, l: Ledger, m: Ledger, a: Opened, b: Opened, x: seq<Known>, y: seq<Known>)
    requires Safe(g, l) && Safe(g, m) && Covers(env.schema, GenesisId(g), m, l) && SameHost(a, b) && !b.closer.state.Prepared?
    requires MoreKnown(x, y) && Sealable(x, b.closer.txid)
    requires forall k :: 0 <= k < |x| ==> CanonicalTransition(x[k].transition) && CanonicalTransition(y[k].transition)
    requires Replay(env, mode, GenesisId(g), l, StepsOf(b, Transitions(y))).Ok?
    ensures Replay(env, mode, GenesisId(g), m, StepsOf(a, Transitions(x))).Ok?
    ensures var n, k := Replay(env, mode, GenesisId(g), m, StepsOf(a, Transitions(x))).value, Replay(env, mode, GenesisId(g), l, StepsOf(b, Transitions(y))).value;
            Safe(g, n) && Safe(g, k) && Covers(env.schema, GenesisId(g), n, k)
    decreases x
  {
    hide Apply, Replay, StepsOf, Transitions, Safe, GenesisId, CanonicalTransition, Covers, MoreOf, SameHost, PlacesAll;
    var contract := GenesisId(g);
    ReplayKnown(env, mode, contract, m, a, x);
    ReplayKnown(env, mode, contract, l, b, y);
    if x != [] {
      StepCovered(env, mode, g, l, m, a, b, x[0].transition, y[0].transition);
      var p, q := x[1..], y[1..];
      assert forall k :: 0 <= k < |p| ==> p[k] == x[k + 1] && q[k] == y[k + 1];
      KnownCovered(env, mode, g, Apply(env, mode, contract, l, b, y[0].transition).value,
                   Apply(env, mode, contract, m, a, x[0].transition).value, a, b, p, q);
    }
  }

  /** The transitions of a bundle, one after the other. */
  lemma {:induction false} ReplayKnown(env: Env, mode: Mode, contract: Digest, l: Ledger, o: Opened, known: seq<Known>)
    ensures known == [] ==> Replay(env, mode, contract, l, StepsOf(o, Transitions(known))) == Ok(l)
    ensures known != [] ==>
              var next := Apply(env, mode, contract, l, o, known[0].transition);
              Replay(env, mode, contract, l, StepsOf(o, Transitions(known))) ==
              if next.Err? then Err(next.error) else Replay(env, mode, contract, next.value, StepsOf(o, Transitions(known[1..])))
  {
    hide Apply;
    if known != [] {
      StepsHead(o, known);
      var rest := StepsOf(o, Transitions(known[1..]));
      assert ([Step(o, known[0].transition)] + rest)[1..] == rest;
    }
  }

  lemma {:induction false} StepsHead(o: Opened, known: seq<Known>)
    requires known != []
    ensures StepsOf(o, Transitions(known)) == [Step(o, known[0].transition)] + StepsOf(o, Transitions(known[1..]))
  {
    assert Transitions(known)[1..] == Transitions(known[1..]);
  }

  ghost predicate MoreBundles(a: seq<WitnessBundle>, b: seq<WitnessBundle>) {
    |a| == |b| && forall p :: 0 <= p < |a| ==> MoreBundle(a[p], b[p])
  }

  ghost predicate FitToRun(bundles: seq<WitnessBundle>) {
    forall p :: 0 <= p < |bundles| ==> CanonicalWitnessBundle(bundles[p]) && Sealable(bundles[p].bundle.known, TxidOf(bundles[p].pub))
  }

  /** Disclosing more in the bundles of a run that is accepted keeps it accepted, and
      leaves at least the same outputs. */
  lemma {:induction false} BundlesCovered(env: Env, mode: Mode, g: Genesis, a: seq<WitnessBundle>, b: seq<WitnessBundle>, m: Run, l: Run)
    requires !mode.allowPrepared && Safe(g, l.ledger) && Safe(g, m.ledger) && Covers(env.schema, GenesisId(g), m.ledger, l.ledger)
    requires MoreBundles(a, b) && FitToRun(a) && (forall p :: 0 <= p < |b| ==> CanonicalWitnessBundle(b[p]))
    requires RunBundles(env, mode, GenesisId(g), b, l).Ok?
    ensures RunBundles(env, mode, GenesisId(g), a, m).Ok?
    ensures var x, y := RunBundles(env, mode, GenesisId(g), a, m).value.ledger, RunBundles(env, mode, GenesisId(g), b, l).value.ledger;
            Safe(g, x) && Safe(g, y) && Covers(env.schema, GenesisId(g), x, y)
    decreases a
  {
    hide Open, Replay, Safe, GenesisId, CanonicalTransition, Covers, MoreOf, PlacesAll;
    if a != [] {
      var contract := GenesisId(g);
      assert MoreBundle(a[0], b[0]) && CanonicalWitnessBundle(a[0]) && CanonicalWitnessBundle(b[0]);
      MoreOpens(env, contract, a[0], b[0]);
      OpensUnder(env, contract, a[0]);
      OpensUnder(env, contract, b[0]);
      var o, q := Open(env, false, contract, a[0]).value, Open(env, false, contract, b[0]).value;
      KnownCovered(env, mode, g, l.ledger, m.ledger, o, q, a[0].bundle.known, b[0].bundle.known);
      var y := Replay(env, mode, contract, l.ledger, StepsOf(q, q.transitions)).value;
      var x := Replay(env, mode, contract, m.ledger, StepsOf(o, o.transitions)).value;
      assert forall p :: 0 <= p < |a[1..]| ==> a[1..][p] == a[p + 1] && b[1..][p] == b[p + 1];
      BundlesCovered(env, mode, g, a[1..], b[1..], Close(m, x, o), Close(l, y, q));
    }
  }
}
