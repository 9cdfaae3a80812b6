/** Fixed-supply assets: nothing is created or destroyed after genesis. */
module Conservation {
  import opened Balance
  import opened Bytes
  import opened Catalog
  import opened Collections
  import opened Operations
  import opened Outputs
  import opened Safety
  import opened Schemas
  import opened SchemaTotals
  import opened Symbols
  import opened Validator
  import opened Wrappers

  predicate FixedSupply(s: Schema) {
    ByID(s) == Some(NIA) || ByID(s) == Some(CFA) || ByID(s) == Some(PFA)
  }

  /** A genesis that passed validation, with its ledger. */
  ghost predicate Begins(env: Env, g: Genesis, l: Ledger) {
    CanonicalGenesis(g) && GenesisError(env.schema, env.types, g) == None && Start(g) == Ok(l)
  }

  /** A ledger some accepted sequence of canonical transitions leads to. */
  ghost predicate Reaches(env: Env, mode: Mode, g: Genesis, steps: seq<Step>, l: Ledger) {
    && Start(g).Ok? && Begins(env, g, Start(g).value) && CanonicalSteps(steps)
    && Replay(env, mode, GenesisId(g), Start(g).value, steps) == Ok(l)
  }

  lemma {:induction false} GenesisTotals(env: Env, g: Genesis, ty: nat)
    requires CanonicalGenesis(g) && GenesisError(env.schema, env.types, g) == None
    ensures var gs := GlobalsOf(env.schema, env.types, env.schema.genesis.globals, g.globals);
            var es := TotalsOf(env.schema, env.types, env.schema.genesis.assignments, g.assignments);
            && ByID(env.schema).Some? && gs.Ok? && es.Ok?
            && GenesisScriptError(ByID(env.schema).value, env.types, gs.value, es.value) == None
            && TotalsAre(es.value, g.assignments, ty)
            && OneAmount(env.types, gs.value, ty) == DeclaredAmount(env.types, g.globals, ty)
            && Lookup(gs.value, ty) == ValuesFor(g.globals, ty)
  {
    hide GlobalsOf, TotalsOf, GenesisScriptError, OneAmount, DeclaredAmount, MetadataError, TotalsAre;
    OutputsMean(env.schema, env.types, env.schema.genesis.assignments, g.assignments, ty);
    DeclaredMeans(env.schema, env.types, env.schema.genesis.globals, g.globals, ty);
  }

  /** Genesis issues exactly what its issued-supply global declares. */
  lemma {:induction false} GenesisIssues(env: Env, g: Genesis)
    requires CanonicalGenesis(g) && GenesisError(env.schema, env.types, g) == None && FixedSupply(env.schema)
    ensures DeclaredAmount(env.types, g.globals, ISSUED_SUPPLY) == Some(Sum(Of(g.assignments, ASSET)))
  {
    hide GenesisError, DeclaredAmount, Sum, Of, GlobalsOf, TotalsOf;
    GenesisTotals(env, g, ISSUED_SUPPLY);
    GenesisTotals(env, g, ASSET);
  }

  lemma {:induction false} Conserves(env: Env, mode: Mode, g: Genesis, l: Ledger, o: Opened, t: Transition)
    requires FixedSupply(env.schema)
    requires Safe(g, l) && CanonicalTransition(t) && Apply(env, mode, GenesisId(g), l, o, t).Ok?
    ensures Amounts(g, Apply(env, mode, GenesisId(g), l, o, t).value, ASSET) == Amounts(g, l, ASSET)
  {
    hide GenesisId, TransitionId, Apply, Safe, CanonicalTransition, Amounts, Validated, Resolution;
    AmountBalance(env, mode, g, l, o, t, ASSET);
    TransitionIncreases(t);
    ValidatedMeans(env.schema, env.types, t, Context(GenesisId(g), l.globals), Resolution(l.states), ASSET);
  }

  lemma {:induction false} ConservesAll(env: Env, mode: Mode, g: Genesis, l: Ledger, steps: seq<Step>)
    requires FixedSupply(env.schema)
    requires Safe(g, l) && CanonicalSteps(steps) && Replay(env, mode, GenesisId(g), l, steps).Ok?
    ensures Amounts(g, Replay(env, mode, GenesisId(g), l, steps).value, ASSET) == Amounts(g, l, ASSET)
    decreases steps
  {
    hide Safe, Apply, GenesisId, CanonicalTransition, Amounts;
    if steps != [] {
      assert CanonicalTransition(steps[0].transition);
      Conserves(env, mode, g, l, steps[0].host, steps[0].transition);
      KeepsSafe(env, mode, g, l, steps[0].host, steps[0].transition);
      assert forall i :: 0 <= i < |steps[1..]| ==> steps[1..][i] == steps[i + 1];
      ConservesAll(env, mode, g, Apply(env, mode, GenesisId(g), l, steps[0].host, steps[0].transition).value, steps[1..]);
    }
  }

  lemma {:induction false} StartAmounts(g: Genesis, ty: nat)
    requires CanonicalGenesis(g) && Start(g).Ok?
    ensures Amounts(g, Start(g).value, ty) == Sum(Of(g.assignments, ty))
  {
    StartBalance(g, ty, AmountIn);
    AmountsSplit(Of(g.assignments, ty));
  }

  /** Conservation: at every point of every accepted history of a fixed-supply asset,
      live and concealed amounts together are the supply that genesis declares. */
  lemma {:induction false} SupplyIsConserved(env: Env, mode: Mode, g: Genesis, steps: seq<Step>, l: Ledger)
    requires FixedSupply(env.schema) && Reaches(env, mode, g, steps, l)
    ensures DeclaredAmount(env.types, g.globals, ISSUED_SUPPLY) == Some(Amounts(g, l, ASSET))
  {
    hide GenesisId, Amounts, DeclaredAmount, GenesisError, Start, Safe;
    GenesisIssues(env, g);
    StartAmounts(g, ASSET);
    SafeStart(g);
    ConservesAll(env, mode, g, Start(g).value, steps);
  }

  /** Distinct live inputs of a type whose live amounts fit 64 bits never trip the guard
      against overflow of the input total. */
  lemma {:induction false} GuardIdle(s: Schema, states: map<InputRef, Placed>, inputs: seq<InputRef>, i: nat, bounds: map<nat, Occurrence>)
    requires Distinct(inputs) && (forall r :: r in inputs ==> r in states) && i < |inputs|
    requires Weigh(states, Only(inputs[i].ty, AmountIn)) < U64
    requires InputsFrom(s, bounds, Resolution(states), inputs[..i], Inputs(map[], map[], map[])).Ok?
    ensures var acc := InputsFrom(s, bounds, Resolution(states), inputs[..i], Inputs(map[], map[], map[])).value;
            && At(acc.amounts, inputs[i].ty) + AmountIn(states[inputs[i]].state) < U64
            && (inputs[i].ty in bounds && inputs[i].ty in s.ownedTypes && ClassOf(states[inputs[i]].state) == s.ownedTypes[inputs[i].ty].kind ==>
                  AddInput(s, bounds, Resolution(states), inputs[i], acc).Ok?)
  {
    hide InputsFrom, Weigh;
    var resolve, ty := Resolution(states), inputs[i].ty;
    InputsMean(s, bounds, resolve, inputs[..i], Inputs(map[], map[], map[]), ty);
    InputAmountWeighs(states, inputs[..i], ty);
    InputWeightMore(states, inputs, i, Only(ty, AmountIn));
    var some := inputs[..i + 1];
    assert Distinct(some);
    assert forall r :: r in some ==> r in inputs;
    InputsWithinLive(states, some, Only(ty, AmountIn));
  }

  /** Whatever distinct live inputs the next transition names, their amounts fit 64
      bits, so the guard never refuses. */
  lemma {:induction false} GuardNeverFires(env: Env, mode: Mode, g: Genesis, steps: seq<Step>, l: Ledger, inputs: seq<InputRef>, i: nat,
                        bounds: map<nat, Occurrence>)
    requires FixedSupply(env.schema) && Reaches(env, mode, g, steps, l)
    requires Distinct(inputs) && (forall r :: r in inputs ==> r in l.states) && i < |inputs| && inputs[i].ty == ASSET
    requires InputsFrom(env.schema, bounds, Resolution(l.states), inputs[..i], Inputs(map[], map[], map[])).Ok?
    ensures var acc := InputsFrom(env.schema, bounds, Resolution(l.states), inputs[..i], Inputs(map[], map[], map[])).value;
            && At(acc.amounts, ASSET) + AmountIn(l.states[inputs[i]].state) < U64
            && (ASSET in bounds && ASSET in env.schema.ownedTypes && ClassOf(l.states[inputs[i]].state) == env.schema.ownedTypes[ASSET].kind ==>
                  AddInput(env.schema, bounds, Resolution(l.states), inputs[i], acc).Ok?)
  {
    hide InputsFrom, Weigh, DeclaredAmount, Reaches;
    SupplyIsConserved(env, mode, g, steps, l);
    GuardIdle(env.schema, l.states, inputs, i, bounds);
  }

  /** Why inputs must be distinct: named twice, an output counts twice but is spent once. */
  lemma {:induction false} DuplicateInputsInflate(states: map<InputRef, Placed>, r: InputRef)
    requires r in states
    ensures InputAmount(Resolution(states), [r, r], r.ty) == 2 * AmountIn(states[r].state)
    ensures Weigh(states, Only(r.ty, AmountIn)) == AmountIn(states[r].state) + Weigh(states - Elements([r, r]), Only(r.ty, AmountIn))
  {
    var resolve := Resolution(states);
    assert [r, r][1..] == [r] && [r][1..] == [];
    assert InputAmount(resolve, [r], r.ty) == AmountIn(states[r].state) + InputAmount(resolve, [], r.ty);
    WeighRemove(states, r, Only(r.ty, AmountIn));
    assert Elements([r, r]) == {r};
  }

  lemma {:induction false} InputWeightMore(m: map<InputRef, Placed>, inputs: seq<InputRef>, i: nat, w: Weight)
    requires i < |inputs| && inputs[i] in m
    ensures InputWeight(m, inputs[..i + 1], w) == InputWeight(m, inputs[..i], w) + w(inputs[i], m[inputs[i]].state)
  {
    InputWeightConcat(m, inputs[..i], [inputs[i]], w);
    assert inputs[..i + 1] == inputs[..i] + [inputs[i]];
    assert [inputs[i]][1..] == [];
  }

  lemma {:induction false} InputWeightConcat(m: map<InputRef, Placed>, a: seq<InputRef>, b: seq<InputRef>, w: Weight)
    ensures InputWeight(m, a + b, w) == InputWeight(m, a, w) + InputWeight(m, b, w)
  {
    if a == [] {
      assert a + b == b;
    } else {
      assert (a + b)[1..] == a[1..] + b;
      InputWeightConcat(m, a[1..], b, w);
    }
  }

  // ----- permissioned assets and the contract's globals

  function DeclaredBy(log: seq<Event>, ty: nat): seq<Data> {
    if log == [] then [] else DeclaredBy(log[..|log| - 1], ty) + ValuesFor(log[|log| - 1].transition.globals, ty)
  }

  /** The globals that validation works with are those of genesis and of every
      accepted transition, in order. */
  ghost predicate GlobalsAccumulate(g: Genesis, l: Ledger, ty: nat) {
    Lookup(l.globals, ty) == ValuesFor(g.globals, ty) + DeclaredBy(l.log, ty)
  }

  lemma {:induction false} Appended(m: Values, gs: seq<Global>, ty: nat)
    requires GlobalsIncrease(gs)
    ensures Lookup(AppendGlobals(m, gs), ty) == Lookup(m, ty) + ValuesFor(gs, ty)
    ensures NoGlobal(gs, ty) ==> ValuesFor(gs, ty) == []
    decreases gs
  {
    if gs != [] {
      var rest := gs[1..];
      assert GlobalsIncrease(rest) by {
        forall i, j | 0 <= i < j < |rest| ensures rest[i].ty < rest[j].ty { assert gs[i + 1].ty < gs[j + 1].ty; }
      }
      Appended(Append(m, gs[0].ty, gs[0].values), rest, ty);
      if gs[0].ty == ty {
        assert NoGlobal(rest, ty) by {
          forall i | 0 <= i < |rest| ensures rest[i].ty != ty { assert gs[0].ty < gs[i + 1].ty; }
        }
      } else if NoGlobal(gs, ty) {
        forall i | 0 <= i < |rest| ensures rest[i].ty != ty { assert gs[i + 1].ty != ty; }
      }
    }
  }

  lemma {:induction false} TransitionGlobals(t: Transition)
    requires CanonicalTransition(t)
    ensures GlobalsIncrease(t.globals)
  {
  }

  lemma {:induction false} KeepsGlobals(env: Env, mode: Mode, g: Genesis, l: Ledger, o: Opened, t: Transition, ty: nat)
    requires GlobalsAccumulate(g, l, ty) && CanonicalTransition(t) && Apply(env, mode, GenesisId(g), l, o, t).Ok?
    ensures GlobalsAccumulate(g, Apply(env, mode, GenesisId(g), l, o, t).value, ty)
  {
    hide GenesisId, TransitionId, Apply, Lookup, CanonicalTransition, AppendGlobals, ValuesFor, DeclaredBy;
    Applied(env, mode, GenesisId(g), l, o, t);
    TransitionGlobals(t);
    Appended(l.globals, t.globals, ty);
    DeclaredMore(l.log, Entered(l, o, t), ty);
    Reassociate(ValuesFor(g.globals, ty), DeclaredBy(l.log, ty), ValuesFor(t.globals, ty));
  }

  lemma {:induction false} DeclaredMore(log: seq<Event>, e: Event, ty: nat)
    ensures DeclaredBy(log + [e], ty) == DeclaredBy(log, ty) + ValuesFor(e.transition.globals, ty)
  {
    hide ValuesFor;
    assert (log + [e])[..|log|] == log;
  }

  lemma {:induction false} Reassociate<T>(a: seq<T>, b: seq<T>, c: seq<T>)
    ensures a + b + c == a + (b + c)
  {
  }

  lemma {:induction false} KeepsAllGlobals(env: Env, mode: Mode, g: Genesis, l: Ledger, steps: seq<Step>, ty: nat)
    requires GlobalsAccumulate(g, l, ty) && CanonicalSteps(steps) && Replay(env, mode, GenesisId(g), l, steps).Ok?
    ensures GlobalsAccumulate(g, Replay(env, mode, GenesisId(g), l, steps).value, ty)
    decreases steps
  {
    hide Apply, GenesisId, CanonicalTransition, GlobalsAccumulate;
    if steps != [] {
      assert CanonicalTransition(steps[0].transition);
      KeepsGlobals(env, mode, g, l, steps[0].host, steps[0].transition, ty);
      assert forall i :: 0 <= i < |steps[1..]| ==> steps[1..][i] == steps[i + 1];
      KeepsAllGlobals(env, mode, g, Apply(env, mode, GenesisId(g), l, steps[0].host, steps[0].transition).value, steps[1..], ty);
    }
  }

  lemma {:induction false} GlobalsOfHistory(env: Env, mode: Mode, g: Genesis, steps: seq<Step>, l: Ledger, ty: nat)
    requires Reaches(env, mode, g, steps, l)
    ensures GlobalsAccumulate(g, l, ty)
  {
    hide GenesisId, Register, GenesisError, Lookup;
    Appended(map[], g.globals, ty);
    assert GlobalsAccumulate(g, Start(g).value, ty) by { NothingDeclared(ty); }
    hide Start, GlobalsAccumulate;
    KeepsAllGlobals(env, mode, g, Start(g).value, steps, ty);
  }

  lemma {:induction false} NothingDeclared(ty: nat)
    ensures Lookup(map[], ty) == [] && DeclaredBy([], ty) == []
    ensures forall s: seq<Data> :: [] + s == s == s + []
  {
  }

  /** At every point of a permissioned asset's history, the next transition is accepted
      only with a signature by the one key the history has declared. */
  lemma {:induction false} PermissionNeedsSignature(env: Env, mode: Mode, g: Genesis, steps: seq<Step>, l: Ledger, o: Opened, t: Transition)
    requires ByID(env.schema) == Some(PFA) && Reaches(env, mode, g, steps, l)
    requires CanonicalTransition(t) && Apply(env, mode, GenesisId(g), l, o, t).Ok?
    ensures var keys := ValuesFor(g.globals, PERMISSION_KEY) + DeclaredBy(l.log, PERMISSION_KEY);
            |keys| == 1 && env.types.signed(keys[0], t.signature, TransitionId(t))
  {
    hide GenesisId, TransitionId, Apply, Validated, Reaches, CanonicalTransition, Resolution, TotalsAre, Lookup, ValuesFor, DeclaredBy,
      ScriptError, MetadataAmounts;
    GlobalsOfHistory(env, mode, g, steps, l, PERMISSION_KEY);
    Applied(env, mode, GenesisId(g), l, o, t);
    TransitionIncreases(t);
    var context := Context(GenesisId(g), l.globals);
    ValidatedMeans(env.schema, env.types, t, context, Resolution(l.states), ASSET);
    ScriptPermits(env, t, TransitionId(t), context, Validated(env.schema, env.types, t, context, Resolution(l.states)).value);
  }

  lemma {:induction false} ScriptPermits(env: Env, t: Transition, op: Digest, context: Context, c: Checked)
    requires ScriptError(PFA, env.types, t, op, context, c) == None
    ensures Permitted(env.types, context, t, op)
  {
  }
}
