/** The balance of any measure of state over a whole history: what is live or
    concealed afterwards is what was there before, less inputs, plus outputs. */
module Balance {
  import opened Bytes
  import opened Catalog
  import opened Collections
  import opened Operations
  import opened Outputs
  import opened Safety
  import opened Schemas
  import opened SchemaTotals
  import opened Symbols
  import opened Validator
  import opened Wrappers

  type Measure = State -> nat

  function One(s: State): nat {
    1
  }

  /** A measure of the outputs of one type. */
  function Only(ty: nat, w: Measure): Weight {
    (ref: InputRef, s: State) => if ref.ty == ty then w(s) else 0
  }

  /** The measure of the disclosed and of the concealed assignments in a list. */
  function Shown(assigns: seq<Assignment>, w: Measure): nat {
    if assigns == [] then 0 else (if assigns[0].Revealed? then w(assigns[0].state) else 0) + Shown(assigns[1..], w)
  }

  function Kept(assigns: seq<Assignment>, w: Measure): nat {
    if assigns == [] then 0 else (if assigns[0].Confidential? then w(assigns[0].state) else 0) + Kept(assigns[1..], w)
  }

  function SumLog(log: seq<Event>, f: Event -> nat): nat {
    if log == [] then 0 else SumLog(log[..|log| - 1], f) + f(log[|log| - 1])
  }

  lemma {:induction false} SumLogMore(log: seq<Event>, e: Event, f: Event -> nat)
    ensures SumLog(log + [e], f) == SumLog(log, f) + f(e)
  {
    assert (log + [e])[..|log|] == log;
  }

  function KeptBy(ty: nat, w: Measure): Event -> nat {
    (e: Event) => Kept(Of(e.transition.assignments, ty), w)
  }

  /** Everything of one type that exists: live outputs and concealed assignments. */
  ghost function Circulating(g: Genesis, l: Ledger, ty: nat, w: Measure): nat {
    Weigh(l.states, Only(ty, w)) + Kept(Of(g.assignments, ty), w) + SumLog(l.log, KeptBy(ty, w))
  }

  // ----- what disclosed outputs weigh

  lemma {:induction false} OutputWeightConcat(op: Digest, a: seq<Output>, b: seq<Output>, w: Weight)
    ensures OutputWeight(op, a + b, w) == OutputWeight(op, a, w) + OutputWeight(op, b, w)
  {
    if a == [] {
      assert a + b == b;
    } else {
      assert (a + b)[1..] == a[1..] + b;
      OutputWeightConcat(op, a[1..], b, w);
    }
  }

  lemma {:induction false} RevealedFromWeighs(op: Digest, own: nat, assigns: seq<Assignment>, no: nat, ty: nat, w: Measure)
    ensures OutputWeight(op, RevealedFrom(own, assigns, no), Only(ty, w)) == if own == ty then Shown(assigns, w) else 0
  {
    if assigns != [] {
      RevealedFromWeighs(op, own, assigns[1..], no + 1, ty, w);
      if assigns[0].Revealed? {
        var rest := RevealedFrom(own, assigns[1..], no + 1);
        assert ([Output(own, no, assigns[0].state, assigns[0].seal)] + rest)[1..] == rest;
      }
    }
  }

  lemma {:induction false} RevealedWeighs(op: Digest, es: seq<Entry>, ty: nat, w: Measure)
    requires Increases(es)
    ensures OutputWeight(op, RevealedOutputs(es), Only(ty, w)) == Shown(Of(es, ty), w)
  {
    if es != [] {
      IncreasesTail(es);
      RevealedWeighs(op, es[1..], ty, w);
      RevealedFromWeighs(op, es[0].ty, es[0].assigns, 0, ty, w);
      OutputWeightConcat(op, RevealedFrom(es[0].ty, es[0].assigns, 0), RevealedOutputs(es[1..]), Only(ty, w));
      if es[0].ty == ty {
        NotMentioned(es[1..], ty);
      }
    }
  }

  // ----- genesis and one step

  lemma {:induction false} StartBalance(g: Genesis, ty: nat, w: Measure)
    requires CanonicalGenesis(g) && Start(g).Ok?
    ensures Circulating(g, Start(g).value, ty, w) == Shown(Of(g.assignments, ty), w) + Kept(Of(g.assignments, ty), w)
  {
    hide GenesisId, Register, Only;
    EntriesIncrease(g.assignments);
    RevealedOutputsDistinct(g.assignments);
    WeighRegister(map[], GenesisId(g), RevealedOutputs(g.assignments), ZERO, Only(ty, w));
    RevealedWeighs(GenesisId(g), g.assignments, ty, w);
  }

  /** Inputs leave, outputs enter, nothing else changes. */
  lemma {:induction false} LiveBalance(env: Env, mode: Mode, g: Genesis, l: Ledger, o: Opened, t: Transition, ty: nat, w: Measure)
    requires Safe(g, l) && CanonicalTransition(t) && Apply(env, mode, GenesisId(g), l, o, t).Ok?
    ensures var m := Apply(env, mode, GenesisId(g), l, o, t).value;
            Weigh(m.states, Only(ty, w)) + InputWeight(l.states, t.inputs, Only(ty, w)) ==
            Weigh(l.states, Only(ty, w)) + Shown(Of(t.assignments, ty), w)
  {
    hide GenesisId, TransitionId, Register, Only, Apply, Safe;
    Applied(env, mode, GenesisId(g), l, o, t);
    var op, outs := TransitionId(t), RevealedOutputs(t.assignments);
    var rest := l.states - Elements(t.inputs);
    forall r | r in t.inputs ensures r in l.states {
      var i :| 0 <= i < |t.inputs| && t.inputs[i] == r;
      assert InputAccepted(l, o, op, t.inputs[i]);
    }
    WeighSpend(l.states, t.inputs, Only(ty, w));
    FreshId(env, mode, g, l, o, t);
    NothingUnderFreshId(g, l, op);
    EntriesIncrease(t.assignments);
    RevealedOutputsDistinct(t.assignments);
    WeighRegister(rest, op, outs, o.closer.txid, Only(ty, w));
    RevealedWeighs(op, t.assignments, ty, w);
  }

  /** The balance of one accepted transition, concealed assignments included. */
  lemma {:induction false} StepBalance(env: Env, mode: Mode, g: Genesis, l: Ledger, o: Opened, t: Transition, ty: nat, w: Measure)
    requires Safe(g, l) && CanonicalTransition(t) && Apply(env, mode, GenesisId(g), l, o, t).Ok?
    ensures var m := Apply(env, mode, GenesisId(g), l, o, t).value;
            Circulating(g, m, ty, w) + InputWeight(l.states, t.inputs, Only(ty, w)) ==
            Circulating(g, l, ty, w) + Shown(Of(t.assignments, ty), w) + Kept(Of(t.assignments, ty), w)
  {
    hide GenesisId, TransitionId, Only, Apply, Safe, CanonicalTransition;
    LiveBalance(env, mode, g, l, o, t, ty, w);
    Applied(env, mode, GenesisId(g), l, o, t);
    SumLogMore(l.log, Entered(l, o, t), KeptBy(ty, w));
  }

  lemma {:induction false} InputsLive(l: Ledger, o: Opened, t: Transition)
    requires forall i :: 0 <= i < |t.inputs| ==> InputAccepted(l, o, TransitionId(t), t.inputs[i])
    ensures forall i :: 0 <= i < |t.inputs| ==> t.inputs[i] in l.states
    ensures forall r :: r in t.inputs ==> r in l.states
  {
    hide TransitionId;
    forall i | 0 <= i < |t.inputs| ensures t.inputs[i] in l.states {
      assert InputAccepted(l, o, TransitionId(t), t.inputs[i]);
    }
  }

  // ----- amounts

  lemma {:induction false} AmountsSplit(assigns: seq<Assignment>)
    ensures Shown(assigns, AmountIn) + Kept(assigns, AmountIn) == Sum(assigns)
  {
    if assigns != [] {
      AmountsSplit(assigns[1..]);
    }
  }

  lemma {:induction false} CountsSplit(assigns: seq<Assignment>)
    ensures Shown(assigns, One) + Kept(assigns, One) == |assigns|
  {
    if assigns != [] {
      CountsSplit(assigns[1..]);
    }
  }

  lemma {:induction false} InputAmountWeighs(states: map<InputRef, Placed>, inputs: seq<InputRef>, ty: nat)
    ensures InputAmount(Resolution(states), inputs, ty) == InputWeight(states, inputs, Only(ty, AmountIn))
  {
    if inputs != [] {
      InputAmountWeighs(states, inputs[1..], ty);
    }
  }

  lemma {:induction false} CountWeighs(states: map<InputRef, Placed>, inputs: seq<InputRef>, ty: nat)
    requires forall i :: 0 <= i < |inputs| ==> inputs[i] in states
    ensures InputWeight(states, inputs, Only(ty, One)) == InputCount(inputs, ty)
  {
    if inputs != [] {
      assert inputs[0] in states;
      assert Only(ty, One)(inputs[0], states[inputs[0]].state) == if inputs[0].ty == ty then One(states[inputs[0]].state) else 0;
      forall i | 0 <= i < |inputs[1..]| ensures inputs[1..][i] in states { assert inputs[i + 1] in states; }
      CountWeighs(states, inputs[1..], ty);
    }
  }

  /** What the distinct inputs of a type amount to is part of what is live. */
  lemma {:induction false} InputsWithinLive(states: map<InputRef, Placed>, inputs: seq<InputRef>, w: Weight)
    requires Distinct(inputs) && forall r :: r in inputs ==> r in states
    ensures InputWeight(states, inputs, w) <= Weigh(states, w)
  {
    WeighSpend(states, inputs, w);
  }

  ghost function Amounts(g: Genesis, l: Ledger, ty: nat): nat {
    Circulating(g, l, ty, AmountIn)
  }

  /** For amounts: after + inputs = before + all outputs, where inputs and outputs
      are the totals that validation computed. */
  lemma {:induction false} AmountBalance(env: Env, mode: Mode, g: Genesis, l: Ledger, o: Opened, t: Transition, ty: nat)
    requires Safe(g, l) && CanonicalTransition(t) && Apply(env, mode, GenesisId(g), l, o, t).Ok?
    ensures Validated(env.schema, env.types, t, Context(GenesisId(g), l.globals), Resolution(l.states)).Ok?
    ensures var m := Apply(env, mode, GenesisId(g), l, o, t).value;
            var c := Validated(env.schema, env.types, t, Context(GenesisId(g), l.globals), Resolution(l.states)).value;
            Amounts(g, m, ty) + At(c.inputs.amounts, ty) == Amounts(g, l, ty) + OwnedAt(c.outputs, ty).sum
  {
    hide GenesisId, TransitionId, Only, Apply, Safe, Validated, Circulating, CanonicalTransition, Resolution;
    Applied(env, mode, GenesisId(g), l, o, t);
    TransitionIncreases(t);
    ValidatedMeans(env.schema, env.types, t, Context(GenesisId(g), l.globals), Resolution(l.states), ty);
    StepBalance(env, mode, g, l, o, t, ty, AmountIn);
    AmountsSplit(Of(t.assignments, ty));
    InputAmountWeighs(l.states, t.inputs, ty);
  }

  lemma {:induction false} TransitionIncreases(t: Transition)
    requires CanonicalTransition(t)
    ensures Increases(t.assignments)
  {
  }

  // ----- declared globals

  /** The amount an operation declares in its only global of a type. */
  function DeclaredAmount(types: Types, gs: seq<Global>, ty: nat): Option<u64> {
    var values := ValuesFor(gs, ty);
    if |values| == 1 && types.global(ty, values[0]).Amount? then Some(types.global(ty, values[0]).value) else None
  }

  lemma {:induction false} DeclaredMeans(s: Schema, types: Types, bounds: map<nat, Occurrence>, gs: seq<Global>, ty: nat)
    requires CanonicalGlobals(gs) && GlobalsOf(s, types, bounds, gs).Ok?
    ensures OneAmount(types, GlobalsOf(s, types, bounds, gs).value, ty) == DeclaredAmount(types, gs, ty)
    ensures Lookup(GlobalsOf(s, types, bounds, gs).value, ty) == ValuesFor(gs, ty)
  {
    GlobalsMean(s, types, bounds, gs, Globals(map[], map[]), ty);
  }
}
