/** Unique assets: one token, one holder, one line of operations. */
module Unique {
  import opened Balance
  import opened Bytes
  import opened Catalog
  import opened Collections
  import opened Conservation
  import opened Operations
  import opened Outputs
  import opened Safety
  import opened SchemaRules
  import opened Schemas
  import opened SchemaTotals
  import opened Symbols
  import opened Validator
  import opened Wrappers

  /** The allocations of the asset that exist: live outputs and concealed assignments. */
  ghost function Holders(g: Genesis, l: Ledger): nat {
    Circulating(g, l, ASSET, One)
  }

  /** The token that genesis declares. */
  function Token(g: Genesis): Data {
    var tokens := ValuesFor(g.globals, TOKENS);
    if |tokens| == 1 then tokens[0] else []
  }

  /** An operation allocates exactly one asset, of the declared token, undivided: it spells the
      first four bytes of the token, then one as eight bytes. */
  ghost predicate AllocatesToken(types: Types, g: Genesis, es: seq<Entry>) {
    && |Of(es, ASSET)| == 1 && Of(es, ASSET)[0].state.Structured?
    && SpellsWhole(types.spelled(Token(g)), types.spelled(Of(es, ASSET)[0].state.data))
  }

  /** The operation that last allocated the asset. */
  function Tip(g: Genesis, log: seq<Event>): Digest {
    if log == [] then GenesisId(g) else log[|log| - 1].op
  }

  /** The `i`-th operation moves the asset on from the operation right before it. */
  ghost predicate Follows(types: Types, g: Genesis, log: seq<Event>, i: nat)
    requires i < |log|
  {
    && InputCount(log[i].transition.inputs, ASSET) == 1
    && (forall r :: r in log[i].transition.inputs && r.ty == ASSET ==> r.op == Tip(g, log[..i]))
    && AllocatesToken(types, g, log[i].transition.assignments)
  }

  ghost predicate Chained(types: Types, g: Genesis, l: Ledger) {
    && Holders(g, l) == 1
    && AllocatesToken(types, g, g.assignments)
    && (forall r :: r in l.states && r.ty == ASSET ==> r.op == Tip(g, l.log) && HoldsToken(types, g, l.states[r].state))
    && (forall i :: 0 <= i < |l.log| ==> Follows(types, g, l.log, i))
  }

  ghost predicate HoldsToken(types: Types, g: Genesis, s: State) {
    s.Structured? && SpellsWhole(types.spelled(Token(g)), types.spelled(s.data))
  }

  // ----- from data totals to single allocations

  lemma {:induction false} UniformData(assigns: seq<Assignment>, kind: Class)
    requires Uniform(assigns, kind)
    ensures kind == StructuredClass ==> |DataOf(assigns)| == |assigns|
    ensures kind != StructuredClass ==> DataOf(assigns) == []
  {
    if assigns != [] {
      assert ClassOf(assigns[0].state) == kind;
      forall i | 0 <= i < |assigns[1..]| ensures ClassOf(assigns[1..][i].state) == kind {
        assert ClassOf(assigns[i + 1].state) == kind;
      }
      UniformData(assigns[1..], kind);
    }
  }

  /** One piece of structured data comes from one assignment. */
  lemma {:induction false} OneAllocation(types: Types, g: Genesis, es: seq<Entry>, kind: Class)
    requires Uniform(Of(es, ASSET), kind) && |DataOf(Of(es, ASSET))| == 1
    requires SpellsWhole(types.spelled(Token(g)), types.spelled(DataOf(Of(es, ASSET))[0]))
    ensures AllocatesToken(types, g, es) && kind == StructuredClass
  {
    UniformData(Of(es, ASSET), kind);
    var a := Of(es, ASSET)[0];
    assert ClassOf(a.state) == kind;
    assert DataOf([]) == [] && Of(es, ASSET)[1..] == [];
    assert DataOf(Of(es, ASSET)) == [a.state.data];
  }

  /** With structured inputs, each contributes one piece of data. */
  lemma {:induction false} InputDataCount(s: Schema, resolve: InputRef -> Option<State>, inputs: seq<InputRef>)
    requires AllResolved(s, resolve, inputs) && ASSET in s.ownedTypes && s.ownedTypes[ASSET].kind == StructuredClass
    ensures |InputData(resolve, inputs, ASSET)| == InputCount(inputs, ASSET)
    ensures forall d :: d in InputData(resolve, inputs, ASSET) ==>
              exists r :: r in inputs && r.ty == ASSET && resolve(r) == Some(Structured(d))
  {
    if inputs != [] {
      forall i | 0 <= i < |inputs[1..]|
        ensures resolve(inputs[1..][i]).Some? && inputs[1..][i].ty in s.ownedTypes && ClassOf(resolve(inputs[1..][i]).value) == s.ownedTypes[inputs[1..][i].ty].kind
      {
        assert inputs[1..][i] == inputs[i + 1];
      }
      InputDataCount(s, resolve, inputs[1..]);
      var r := inputs[0];
      assert resolve(r).Some? && ClassOf(resolve(r).value) == s.ownedTypes[r.ty].kind;
      var head := if r.ty == ASSET then DataIn(resolve(r).value) else [];
      assert InputData(resolve, inputs, ASSET) == head + InputData(resolve, inputs[1..], ASSET);
      forall d | d in InputData(resolve, inputs, ASSET)
        ensures exists r :: r in inputs && r.ty == ASSET && resolve(r) == Some(Structured(d))
      {
        if d in head {
          assert resolve(inputs[0]) == Some(Structured(d));
        } else {
          var q :| q in inputs[1..] && q.ty == ASSET && resolve(q) == Some(Structured(d));
          assert q in inputs;
        }
      }
    }
  }

  /** When nothing is left to weigh, no output of the type is live. */
  lemma {:induction false} NothingWeighs(m: map<InputRef, Placed>, ty: nat, r: InputRef)
    requires Weigh(m, Only(ty, One)) == 0
    ensures r in m ==> r.ty != ty
  {
    if r in m {
      WeighRemove(m, r, Only(ty, One));
      assert Only(ty, One)(r, m[r].state) == if r.ty == ty then One(m[r].state) else 0;
    }
  }

  // ----- genesis

  /** The genesis of a unique asset allocates its one declared token. */
  lemma {:induction false} GenesisAllocates(env: Env, g: Genesis)
    requires CanonicalGenesis(g) && GenesisError(env.schema, env.types, g) == None && ByID(env.schema) == Some(UDA)
    ensures AllocatesToken(env.types, g, g.assignments)
    ensures ASSET in env.schema.ownedTypes && env.schema.ownedTypes[ASSET].kind == StructuredClass
  {
    hide GenesisError, GlobalsOf, TotalsOf, WholeToken, SpellsWhole;
    GenesisTotals(env, g, TOKENS);
    GenesisTotals(env, g, ASSET);
    EntriesIncrease(g.assignments);
    assert TotalsOf(env.schema, env.types, env.schema.genesis.assignments, g.assignments).Ok?;
    OutputsMean(env.schema, env.types, env.schema.genesis.assignments, g.assignments, ASSET);
    assert |DataOf(Of(g.assignments, ASSET))| == 1;
    assert Of(g.assignments, ASSET) != [];
    WholeExactly(env.types, Token(g), DataOf(Of(g.assignments, ASSET))[0]);
    OneAllocation(env.types, g, g.assignments, env.schema.ownedTypes[ASSET].kind);
  }

  lemma {:induction false} ChainStarts(env: Env, g: Genesis)
    requires CanonicalGenesis(g) && GenesisError(env.schema, env.types, g) == None && ByID(env.schema) == Some(UDA)
    requires Start(g).Ok?
    ensures Chained(env.types, g, Start(g).value)
  {
    hide GenesisId, GenesisError, AllocatesToken, SpellsWhole;
    GenesisAllocates(env, g);
    StartBalance(g, ASSET, One);
    CountsSplit(Of(g.assignments, ASSET));
    assert |Of(g.assignments, ASSET)| == 1 by { TokenParts(env.types, g, g.assignments); }
    var l := Start(g).value;
    forall r | r in l.states && r.ty == ASSET ensures r.op == Tip(g, l.log) && HoldsToken(env.types, g, l.states[r].state) {
      StartLive(g, r);
      TokenParts(env.types, g, g.assignments);
    }
  }

  lemma {:induction false} TokenParts(types: Types, g: Genesis, es: seq<Entry>)
    requires AllocatesToken(types, g, es)
    ensures |Of(es, ASSET)| == 1 && HoldsToken(types, g, Of(es, ASSET)[0].state)
  {
  }

  lemma {:induction false} StartLive(g: Genesis, r: InputRef)
    requires CanonicalGenesis(g) && Start(g).Ok? && r in Start(g).value.states
    ensures r.op == GenesisId(g) && IsRevealed(g.assignments, r.ty, r.no)
    ensures Start(g).value.states[r].state == Of(g.assignments, r.ty)[r.no].state
  {
    hide GenesisId, Register, Placing;
    EntriesIncrease(g.assignments);
    RegisterMeans(map[], GenesisId(g), g.assignments, ZERO, r);
    var a := Of(g.assignments, r.ty)[r.no];
    PlacingState(a.state, a.seal, ZERO);
  }

  // ----- one step

  /** The script of a unique asset: one asset input, one allocation of the same token. */
  lemma {:induction false} TokenMoves(env: Env, mode: Mode, g: Genesis, l: Ledger, o: Opened, t: Transition)
    requires ByID(env.schema) == Some(UDA) && ASSET in env.schema.ownedTypes && env.schema.ownedTypes[ASSET].kind == StructuredClass
    requires forall r :: r in l.states && r.ty == ASSET ==> HoldsToken(env.types, g, l.states[r].state)
    requires CanonicalTransition(t) && Apply(env, mode, GenesisId(g), l, o, t).Ok?
    ensures InputCount(t.inputs, ASSET) == 1 && AllocatesToken(env.types, g, t.assignments)
  {
    hide GenesisId, TransitionId, Apply, Validated, SpellsWhole, CanonicalTransition, InputData, InputCount, Of, DataOf, AllocatesToken;
    Applied(env, mode, GenesisId(g), l, o, t);
    var context, resolve := Context(GenesisId(g), l.globals), Resolution(l.states);
    TransitionIncreases(t);
    ValidatedMeans(env.schema, env.types, t, context, resolve, ASSET);
    var c := Validated(env.schema, env.types, t, context, resolve).value;
    MovesOneToken(env, t, TransitionId(t), context, c);
    InputDataCount(env.schema, resolve, t.inputs);
    var d := InputData(resolve, t.inputs, ASSET)[0];
    var r :| r in t.inputs && r.ty == ASSET && resolve(r) == Some(Structured(d));
    assert HoldsToken(env.types, g, l.states[r].state);
    SameToken(env.types, Token(g), d, DataOf(Of(t.assignments, ASSET))[0]);
    EmptyData();
    OneAllocation(env.types, g, t.assignments, env.schema.ownedTypes[ASSET].kind);
  }

  lemma {:induction false} EmptyData()
    ensures DataOf([]) == []
  {
  }

  lemma {:induction false} MovesOneToken(env: Env, t: Transition, op: Digest, context: Context, c: Checked)
    requires ScriptError(UDA, env.types, t, op, context, c) == None
    requires TotalsAre(c.outputs, t.assignments, ASSET)
    ensures |Lookup(c.inputs.data, ASSET)| == 1 && |DataOf(Of(t.assignments, ASSET))| == 1
    ensures SpellsWhole(env.types.spelled(Lookup(c.inputs.data, ASSET)[0]), env.types.spelled(DataOf(Of(t.assignments, ASSET))[0]))
  {
    hide WholeToken, SpellsWhole, Of, DataOf;
    WholeExactly(env.types, Lookup(c.inputs.data, ASSET)[0], DataOf(Of(t.assignments, ASSET))[0]);
  }

  lemma {:induction false} SameToken(types: Types, token: Data, before: Data, after: Data)
    requires SpellsWhole(types.spelled(token), types.spelled(before)) && SpellsWhole(types.spelled(before), types.spelled(after))
    ensures SpellsWhole(types.spelled(token), types.spelled(after))
  {
    var x, y := types.spelled(token), types.spelled(before);
    assert x[..4] == y[..4];
  }

  /** The one live asset was the input, so nothing but the new allocation can be live. */
  lemma {:induction false} TipMoves(env: Env, mode: Mode, g: Genesis, l: Ledger, o: Opened, t: Transition, r: InputRef)
    requires Safe(g, l) && Holders(g, l) == 1 && InputCount(t.inputs, ASSET) == 1
    requires CanonicalTransition(t) && Apply(env, mode, GenesisId(g), l, o, t).Ok?
    requires r in Apply(env, mode, GenesisId(g), l, o, t).value.states && r.ty == ASSET
    ensures r.op == TransitionId(t)
  {
    hide GenesisId, TransitionId, Apply, Safe, CanonicalTransition, Only, SumLog;
    Applied(env, mode, GenesisId(g), l, o, t);
    LiveAfter(env, mode, g, l, o, t, r);
    if r.op != TransitionId(t) {
      InputsLive(l, o, t);
      CountWeighs(l.states, t.inputs, ASSET);
      assert Distinct(t.inputs) by { DistinctInputs(t); }
      WeighSpend(l.states, t.inputs, Only(ASSET, One));
      NothingWeighs(l.states - Elements(t.inputs), ASSET, r);
    }
  }

  lemma {:induction false} DistinctInputs(t: Transition)
    requires CanonicalTransition(t)
    ensures Distinct(t.inputs)
  {
  }

  lemma {:induction false} HoldersAfter(env: Env, mode: Mode, g: Genesis, l: Ledger, o: Opened, t: Transition)
    requires Safe(g, l) && Holders(g, l) == 1 && InputCount(t.inputs, ASSET) == 1 && |Of(t.assignments, ASSET)| == 1
    requires CanonicalTransition(t) && Apply(env, mode, GenesisId(g), l, o, t).Ok?
    ensures Holders(g, Apply(env, mode, GenesisId(g), l, o, t).value) == 1
  {
    hide GenesisId, TransitionId, Apply, Safe, CanonicalTransition, Only, Circulating;
    Applied(env, mode, GenesisId(g), l, o, t);
    InputsLive(l, o, t);
    CountWeighs(l.states, t.inputs, ASSET);
    StepBalance(env, mode, g, l, o, t, ASSET, One);
    CountsSplit(Of(t.assignments, ASSET));
  }

  lemma {:induction false} LiveTokens(env: Env, mode: Mode, g: Genesis, l: Ledger, o: Opened, t: Transition, r: InputRef)
    requires Safe(g, l) && AllocatesToken(env.types, g, t.assignments)
    requires CanonicalTransition(t) && Apply(env, mode, GenesisId(g), l, o, t).Ok?
    requires r in Apply(env, mode, GenesisId(g), l, o, t).value.states && r.ty == ASSET && r.op == TransitionId(t)
    ensures HoldsToken(env.types, g, Apply(env, mode, GenesisId(g), l, o, t).value.states[r].state)
  {
    hide GenesisId, TransitionId, Apply, Safe, CanonicalTransition, SpellsWhole, Placing;
    LiveAfter(env, mode, g, l, o, t, r);
    var a := Of(t.assignments, ASSET)[r.no];
    PlacingState(a.state, a.seal, o.closer.txid);
  }

  lemma {:induction false} ChainGoesOn(env: Env, mode: Mode, g: Genesis, l: Ledger, o: Opened, t: Transition)
    requires ByID(env.schema) == Some(UDA) && ASSET in env.schema.ownedTypes && env.schema.ownedTypes[ASSET].kind == StructuredClass
    requires Chained(env.types, g, l)
    requires Safe(g, l) && CanonicalTransition(t) && Apply(env, mode, GenesisId(g), l, o, t).Ok?
    ensures Chained(env.types, g, Apply(env, mode, GenesisId(g), l, o, t).value)
  {
    hide GenesisId, TransitionId, Apply, Safe, CanonicalTransition, Holders, HoldsToken, AllocatesToken, InputCount;
    Applied(env, mode, GenesisId(g), l, o, t);
    TokenMoves(env, mode, g, l, o, t);
    TokenParts(env.types, g, t.assignments);
    HoldersAfter(env, mode, g, l, o, t);
    var m := Apply(env, mode, GenesisId(g), l, o, t).value;
    forall r | r in m.states && r.ty == ASSET ensures r.op == Tip(g, m.log) && HoldsToken(env.types, g, m.states[r].state) {
      TipMoves(env, mode, g, l, o, t, r);
      LiveTokens(env, mode, g, l, o, t, r);
    }
    InputsLive(l, o, t);
    forall i | 0 <= i < |m.log| ensures Follows(env.types, g, m.log, i) {
      if i < |l.log| {
        assert Follows(env.types, g, l.log, i);
        assert m.log[i] == l.log[i] && m.log[..i] == l.log[..i];
      } else {
        assert m.log[i] == Entered(l, o, t) && m.log[..i] == l.log;
      }
    }
  }

  lemma {:induction false} ChainGoesOnAll(env: Env, mode: Mode, g: Genesis, l: Ledger, steps: seq<Step>)
    requires ByID(env.schema) == Some(UDA) && ASSET in env.schema.ownedTypes && env.schema.ownedTypes[ASSET].kind == StructuredClass
    requires Chained(env.types, g, l)
    requires Safe(g, l) && CanonicalSteps(steps) && Replay(env, mode, GenesisId(g), l, steps).Ok?
    ensures Chained(env.types, g, Replay(env, mode, GenesisId(g), l, steps).value)
    decreases steps
  {
    hide Safe, Apply, GenesisId, CanonicalTransition, Chained;
    if steps != [] {
      assert CanonicalTransition(steps[0].transition);
      ChainGoesOn(env, mode, g, l, steps[0].host, steps[0].transition);
      KeepsSafe(env, mode, g, l, steps[0].host, steps[0].transition);
      assert forall i :: 0 <= i < |steps[1..]| ==> steps[1..][i] == steps[i + 1];
      ChainGoesOnAll(env, mode, g, Apply(env, mode, GenesisId(g), l, steps[0].host, steps[0].transition).value, steps[1..]);
    }
  }

  /** Uniqueness: at every point of every accepted history exactly one allocation
      exists, of the token genesis declared, and the history is one line of operations. */
  lemma {:induction false} TokenIsUnique(env: Env, mode: Mode, g: Genesis, steps: seq<Step>, l: Ledger)
    requires ByID(env.schema) == Some(UDA) && Reaches(env, mode, g, steps, l)
    ensures Chained(env.types, g, l)
  {
    hide GenesisId, Chained, GenesisError, Start, Safe;
    GenesisAllocates(env, g);
    ChainStarts(env, g);
    SafeStart(g);
    ChainGoesOnAll(env, mode, g, Start(g).value, steps);
  }
}
