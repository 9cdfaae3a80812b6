/** Inflatable assets: the exact accounts of issuance, inflation rights and burns. */
module Inflation {
  import opened Balance
  import opened Bytes
  import opened Catalog
  import opened Conservation
  import opened Operations
  import opened Outputs
  import opened Safety
  import opened SchemaAccepts
  import opened Schemas
  import opened SchemaTotals
  import opened Symbols
  import opened Validator
  import opened Wrappers

  // ----- what one operation issues and destroys, as it declares

  function MetaAmount(env: Env, t: Transition, id: nat): nat {
    match MetadataAmounts(env.schema, env.types, t.metadata, map[])
    case Ok(m) => At(m, id)
    case Err(_) => 0
  }

  /** The issued-supply global of an inflation. */
  function Issues(env: Env): Event -> nat {
    (e: Event) =>
      if e.transition.ty == INFLATE && DeclaredAmount(env.types, e.transition.globals, ISSUED_SUPPLY).Some?
      then DeclaredAmount(env.types, e.transition.globals, ISSUED_SUPPLY).value else 0
  }

  /** The burnt amounts in the metadata of a burn. */
  function BurnsAsset(env: Env): Event -> nat {
    (e: Event) => if e.transition.ty == BURN then MetaAmount(env, e.transition, 1001) else 0
  }

  function BurnsInflation(env: Env): Event -> nat {
    (e: Event) => if e.transition.ty == BURN then MetaAmount(env, e.transition, 1002) else 0
  }

  // ----- the accounts

  /** Issued so far, in genesis and by inflations. */
  ghost function Issued(env: Env, g: Genesis, l: Ledger): nat {
    Sum(Of(g.assignments, ASSET)) + SumLog(l.log, Issues(env))
  }

  /** Assets: what exists and what was burnt is what was issued. */
  ghost predicate AssetAccount(env: Env, g: Genesis, l: Ledger) {
    Amounts(g, l, ASSET) + SumLog(l.log, BurnsAsset(env)) == Issued(env, g, l)
  }

  /** Rights: what was issued, may still be issued or was given up is what genesis allows. */
  ghost predicate RightsAccount(env: Env, g: Genesis, l: Ledger) {
    Issued(env, g, l) + Amounts(g, l, INFLATION) + SumLog(l.log, BurnsInflation(env)) ==
    Sum(Of(g.assignments, ASSET)) + Sum(Of(g.assignments, INFLATION))
  }

  /** The movements of one transition. */
  datatype Moves = Moves(issued: nat, burntAsset: nat, burntInflation: nat)

  function MovesOf(env: Env, e: Event): Moves {
    Moves(Issues(env)(e), BurnsAsset(env)(e), BurnsInflation(env)(e))
  }

  lemma {:induction false} NoneOfType(s: Schema, bounds: map<nat, Occurrence>, resolve: InputRef -> Option<State>, inputs: seq<InputRef>, acc: Inputs, ty: nat)
    requires ty !in bounds && InputsFrom(s, bounds, resolve, inputs, acc).Ok?
    ensures InputAmount(resolve, inputs, ty) == 0 && InputCount(inputs, ty) == 0
  {
    if inputs != [] {
      AddInputMeans(s, bounds, resolve, inputs[0], acc, ty);
      NoneOfType(s, bounds, resolve, inputs[1..], AddInput(s, bounds, resolve, inputs[0], acc).value, ty);
    }
  }

  /** The schema lets an inflation consume inflation rights only. The script does not look
      at other inputs. */
  lemma {:induction false} InflationTakesRights(env: Env, t: Transition, context: Context, resolve: InputRef -> Option<State>)
    requires ByID(env.schema) == Some(IFA) && t.ty == INFLATE && Validated(env.schema, env.types, t, context, resolve).Ok?
    ensures var c := Validated(env.schema, env.types, t, context, resolve).value;
            At(c.inputs.amounts, ASSET) == 0 && At(c.inputs.counts, RIGHTS) == 0
  {
    hide TransitionId, ScriptError, GlobalsOf, TotalsOf, InputsFrom, MetadataAmounts, MetadataError, At;
    KindIs(env.schema);
    var start := Inputs(map[], map[], map[]);
    NoneOfType(env.schema, INFLATES.inputs, resolve, t.inputs, start, ASSET);
    NoneOfType(env.schema, INFLATES.inputs, resolve, t.inputs, start, RIGHTS);
    InputsMean(env.schema, INFLATES.inputs, resolve, t.inputs, start, ASSET);
    InputsMean(env.schema, INFLATES.inputs, resolve, t.inputs, start, RIGHTS);
    AtNothing(ASSET);
    AtNothing(RIGHTS);
  }

  lemma {:induction false} AtNothing(k: nat)
    ensures At(map[], k) == 0
  {
  }

  /** The rules of the schema, as sums without wrap-around. */
  lemma {:induction false} RulesBalance(env: Env, mode: Mode, g: Genesis, l: Ledger, o: Opened, t: Transition)
    requires ByID(env.schema) == Some(IFA)
    requires Safe(g, l) && CanonicalTransition(t) && Apply(env, mode, GenesisId(g), l, o, t).Ok?
    ensures Validated(env.schema, env.types, t, Context(GenesisId(g), l.globals), Resolution(l.states)).Ok?
    ensures var c := Validated(env.schema, env.types, t, Context(GenesisId(g), l.globals), Resolution(l.states)).value;
            var m := MovesOf(env, Entered(l, o, t));
            && OwnedAt(c.outputs, ASSET).sum + m.burntAsset == At(c.inputs.amounts, ASSET) + m.issued
            && OwnedAt(c.outputs, INFLATION).sum + m.burntInflation + m.issued == At(c.inputs.amounts, INFLATION)
  {
    hide GenesisId, TransitionId, Apply, Safe, Validated, Resolution, CanonicalTransition, DeclaredAmount, OneAmount, MetadataAmounts;
    Applied(env, mode, GenesisId(g), l, o, t);
    var context, resolve := Context(GenesisId(g), l.globals), Resolution(l.states);
    TransitionIncreases(t);
    ValidatedMeans(env.schema, env.types, t, context, resolve, ASSET);
    var c := Validated(env.schema, env.types, t, context, resolve).value;
    DeclaredIssue(env, t, context, resolve);
    if t.ty == INFLATE { InflationTakesRights(env, t, context, resolve); }
    ScriptBalance(env, t, TransitionId(t), context, c);
  }

  /** The amount an accepted inflation declares is the one its script checked. */
  lemma {:induction false} DeclaredIssue(env: Env, t: Transition, context: Context, resolve: InputRef -> Option<State>)
    requires CanonicalTransition(t) && Validated(env.schema, env.types, t, context, resolve).Ok?
    ensures OneAmount(env.types, Validated(env.schema, env.types, t, context, resolve).value.globals, ISSUED_SUPPLY) ==
            DeclaredAmount(env.types, t.globals, ISSUED_SUPPLY)
  {
    hide TransitionId, ScriptError, OneAmount, DeclaredAmount, GlobalsOf, TotalsOf, InputsOf, MetadataAmounts, MetadataError;
    DeclaredMeans(env.schema, env.types, env.schema.transitions[t.ty].globals, t.globals, ISSUED_SUPPLY);
  }

  lemma {:induction false} ScriptBalance(env: Env, t: Transition, op: Digest, context: Context, c: Checked)
    requires ScriptError(IFA, env.types, t, op, context, c) == None
    requires t.ty == INFLATE ==> At(c.inputs.amounts, ASSET) == 0
    ensures var issued := if t.ty == INFLATE then (if OneAmount(env.types, c.globals, ISSUED_SUPPLY).Some? then OneAmount(env.types, c.globals, ISSUED_SUPPLY).value else 0) else 0;
            var burntAsset, burntInflation := if t.ty == BURN then At(c.metadata, 1001) else 0, if t.ty == BURN then At(c.metadata, 1002) else 0;
            && OwnedAt(c.outputs, ASSET).sum + burntAsset == At(c.inputs.amounts, ASSET) + issued
            && OwnedAt(c.outputs, INFLATION).sum + burntInflation + issued == At(c.inputs.amounts, INFLATION)
  {
    hide OneAmount, OwnedAt, At;
    if t.ty == INFLATE {
      var issued, remaining := OneAmount(env.types, c.globals, ISSUED_SUPPLY).value, c.metadata[1000];
      NoWrap(issued, remaining);
    } else if t.ty == BURN {
      MetaAt(c.metadata, 1001);
      MetaAt(c.metadata, 1002);
      NoWrap(OwnedAt(c.outputs, ASSET).sum, c.metadata[1001]);
      NoWrap(OwnedAt(c.outputs, INFLATION).sum, c.metadata[1002]);
    }
  }

  lemma {:induction false} MetaAt(m: map<nat, u64>, k: nat)
    requires k in m
    ensures At(m, k) == m[k]
  {
  }

  /** A 64-bit sum that is not below a summand did not wrap. */
  lemma {:induction false} NoWrap(a: u64, b: u64)
    requires (a + b) % U64 >= a
    ensures (a + b) % U64 == a + b
  {
    assert (a + b) % U64 == if a + b < U64 then a + b else a + b - U64;
  }

  lemma {:induction false} LogMoves(env: Env, l: Ledger, e: Event, f: seq<Event>)
    requires f == l.log + [e]
    ensures SumLog(f, Issues(env)) == SumLog(l.log, Issues(env)) + MovesOf(env, e).issued
    ensures SumLog(f, BurnsAsset(env)) == SumLog(l.log, BurnsAsset(env)) + MovesOf(env, e).burntAsset
    ensures SumLog(f, BurnsInflation(env)) == SumLog(l.log, BurnsInflation(env)) + MovesOf(env, e).burntInflation
  {
    hide Issues, BurnsAsset, BurnsInflation, SumLog;
    SumLogMore(l.log, e, Issues(env));
    SumLogMore(l.log, e, BurnsAsset(env));
    SumLogMore(l.log, e, BurnsInflation(env));
  }

  lemma {:induction false} KeepsAccounts(env: Env, mode: Mode, g: Genesis, l: Ledger, o: Opened, t: Transition)
    requires ByID(env.schema) == Some(IFA)
    requires AssetAccount(env, g, l) && RightsAccount(env, g, l)
    requires Safe(g, l) && CanonicalTransition(t) && Apply(env, mode, GenesisId(g), l, o, t).Ok?
    ensures var m := Apply(env, mode, GenesisId(g), l, o, t).value;
            AssetAccount(env, g, m) && RightsAccount(env, g, m)
  {
    hide GenesisId, TransitionId, Apply, Safe, Validated, CanonicalTransition, Amounts, MovesOf, SumLog;
    Applied(env, mode, GenesisId(g), l, o, t);
    AmountBalance(env, mode, g, l, o, t, ASSET);
    AmountBalance(env, mode, g, l, o, t, INFLATION);
    RulesBalance(env, mode, g, l, o, t);
    LogMoves(env, l, Entered(l, o, t), Apply(env, mode, GenesisId(g), l, o, t).value.log);
  }

  lemma {:induction false} KeepsAllAccounts(env: Env, mode: Mode, g: Genesis, l: Ledger, steps: seq<Step>)
    requires ByID(env.schema) == Some(IFA)
    requires AssetAccount(env, g, l) && RightsAccount(env, g, l)
    requires Safe(g, l) && CanonicalSteps(steps) && Replay(env, mode, GenesisId(g), l, steps).Ok?
    ensures var m := Replay(env, mode, GenesisId(g), l, steps).value;
            AssetAccount(env, g, m) && RightsAccount(env, g, m)
    decreases steps
  {
    hide Safe, Apply, GenesisId, CanonicalTransition, AssetAccount, RightsAccount;
    if steps != [] {
      assert CanonicalTransition(steps[0].transition);
      KeepsAccounts(env, mode, g, l, steps[0].host, steps[0].transition);
      KeepsSafe(env, mode, g, l, steps[0].host, steps[0].transition);
      assert forall i :: 0 <= i < |steps[1..]| ==> steps[1..][i] == steps[i + 1];
      KeepsAllAccounts(env, mode, g, Apply(env, mode, GenesisId(g), l, steps[0].host, steps[0].transition).value, steps[1..]);
    }
  }

  /** Genesis of an inflatable asset: the declared supply is assigned, and the rest
      up to the declared maximum is inflation rights. */
  lemma {:induction false} GenesisAllows(env: Env, g: Genesis)
    requires CanonicalGenesis(g) && GenesisError(env.schema, env.types, g) == None && ByID(env.schema) == Some(IFA)
    ensures DeclaredAmount(env.types, g.globals, ISSUED_SUPPLY) == Some(Sum(Of(g.assignments, ASSET)))
    ensures DeclaredAmount(env.types, g.globals, MAX_SUPPLY) == Some(Sum(Of(g.assignments, ASSET)) + Sum(Of(g.assignments, INFLATION)))
  {
    hide GenesisError, DeclaredAmount, Sum, Of, GlobalsOf, TotalsOf, OneAmount;
    GenesisTotals(env, g, ISSUED_SUPPLY);
    GenesisTotals(env, g, MAX_SUPPLY);
    GenesisTotals(env, g, ASSET);
    GenesisTotals(env, g, INFLATION);
  }

  /** The supply bound: at every point of every accepted history both accounts
      balance against the declared maximum; so issuance never exceeds it, and what
      exists together with all rights is the maximum less what was burnt. */
  lemma {:induction false} SupplyIsBounded(env: Env, mode: Mode, g: Genesis, steps: seq<Step>, l: Ledger)
    requires ByID(env.schema) == Some(IFA) && Reaches(env, mode, g, steps, l)
    ensures DeclaredAmount(env.types, g.globals, MAX_SUPPLY).Some?
    ensures var maximum := DeclaredAmount(env.types, g.globals, MAX_SUPPLY).value;
            && Issued(env, g, l) + Amounts(g, l, INFLATION) + SumLog(l.log, BurnsInflation(env)) == maximum
            && Amounts(g, l, ASSET) + SumLog(l.log, BurnsAsset(env)) == Issued(env, g, l)
            && Issued(env, g, l) <= maximum
            && Amounts(g, l, ASSET) + Amounts(g, l, INFLATION) <= maximum
  {
    hide GenesisId, Amounts, DeclaredAmount, GenesisError, Start, Safe;
    GenesisAllows(env, g);
    StartAmounts(g, ASSET);
    StartAmounts(g, INFLATION);
    assert Start(g).value.log == [] by { StartLog(g); }
    SafeStart(g);
    KeepsAllAccounts(env, mode, g, Start(g).value, steps);
  }

  lemma {:induction false} StartLog(g: Genesis)
    requires Start(g).Ok?
    ensures Start(g).value.log == []
  {
  }

  /** One transition never raises assets and rights together: they fall by exactly
      what it burns and drops, so they stay equal when it does neither. */
  lemma {:induction false} NeverRises(env: Env, mode: Mode, g: Genesis, l: Ledger, o: Opened, t: Transition)
    requires ByID(env.schema) == Some(IFA)
    requires Safe(g, l) && CanonicalTransition(t) && Apply(env, mode, GenesisId(g), l, o, t).Ok?
    ensures var m := Apply(env, mode, GenesisId(g), l, o, t).value;
            var x := MovesOf(env, Entered(l, o, t));
            Amounts(g, m, ASSET) + Amounts(g, m, INFLATION) + x.burntAsset + x.burntInflation ==
            Amounts(g, l, ASSET) + Amounts(g, l, INFLATION)
  {
    hide GenesisId, TransitionId, Apply, Safe, Validated, CanonicalTransition, Amounts, MovesOf;
    AmountBalance(env, mode, g, l, o, t, ASSET);
    AmountBalance(env, mode, g, l, o, t, INFLATION);
    RulesBalance(env, mode, g, l, o, t);
  }

  /** Neither for assets nor for rights does the guard against overflow of the input total
      ever refuse distinct live inputs. */
  lemma {:induction false} NoOverflow(env: Env, mode: Mode, g: Genesis, steps: seq<Step>, l: Ledger, inputs: seq<InputRef>, i: nat,
                                      bounds: map<nat, Occurrence>)
    requires ByID(env.schema) == Some(IFA) && Reaches(env, mode, g, steps, l)
    requires Distinct(inputs) && (forall r :: r in inputs ==> r in l.states)
    requires i < |inputs| && (inputs[i].ty == ASSET || inputs[i].ty == INFLATION)
    requires InputsFrom(env.schema, bounds, Resolution(l.states), inputs[..i], Inputs(map[], map[], map[])).Ok?
    ensures var acc := InputsFrom(env.schema, bounds, Resolution(l.states), inputs[..i], Inputs(map[], map[], map[])).value;
            && At(acc.amounts, inputs[i].ty) + AmountIn(l.states[inputs[i]].state) < U64
            && (inputs[i].ty in bounds && inputs[i].ty in env.schema.ownedTypes
                && ClassOf(l.states[inputs[i]].state) == env.schema.ownedTypes[inputs[i].ty].kind ==>
                  AddInput(env.schema, bounds, Resolution(l.states), inputs[i], acc).Ok?)
  {
    hide InputsFrom, Weigh, DeclaredAmount, Reaches, Issued, SumLog;
    SupplyIsBounded(env, mode, g, steps, l);
    GuardIdle(env.schema, l.states, inputs, i, bounds);
  }

  // ----- link rights

  lemma {:induction false} NoneAssigned(s: Schema, types: Types, bounds: map<nat, Occurrence>, es: seq<Entry>, ty: nat)
    requires ty !in bounds && OutputsFit(s, types, bounds, es)
    ensures Of(es, ty) == []
  {
    hide WellBounded, AssignmentsFit;
    forall i | 0 <= i < |es| ensures es[i].ty != ty {
      assert EntryFits(s, types, bounds, es[i]);
    }
    NotMentioned(es, ty);
  }

  /** Only transfers assign link rights; inflations do not take any. */
  lemma {:induction false} RightsMove(env: Env, t: Transition, context: Context, resolve: InputRef -> Option<State>)
    requires ByID(env.schema) == Some(IFA) && CanonicalTransition(t) && Validated(env.schema, env.types, t, context, resolve).Ok?
    ensures t.ty == TRANSFER || t.ty == INFLATE || t.ty == BURN
    ensures t.ty == TRANSFER ==> InputCount(t.inputs, RIGHTS) == |Of(t.assignments, RIGHTS)|
    ensures t.ty != TRANSFER ==> Of(t.assignments, RIGHTS) == []
    ensures t.ty == INFLATE ==> InputCount(t.inputs, RIGHTS) == 0
  {
    hide TransitionId, Validated, Conforming, MetadataFits, GlobalsFit, OutputsFit, InputsFit, Inflates, Burns, MovesAll, At, OwnedAt;
    TransitionIncreases(t);
    GlobalsIncreaseIn(t);
    KindIs(env.schema);
    ValidatedExactly(env.schema, env.types, t, context, resolve);
    ValidatedMeans(env.schema, env.types, t, context, resolve, RIGHTS);
    if t.ty == INFLATE {
      NoneAssigned(env.schema, env.types, INFLATES.assignments, t.assignments, RIGHTS);
      InflationTakesRights(env, t, context, resolve);
    } else if t.ty == BURN {
      NoneAssigned(env.schema, env.types, BURNS.assignments, t.assignments, RIGHTS);
    }
  }

  lemma {:induction false} GlobalsIncreaseIn(t: Transition)
    requires CanonicalTransition(t)
    ensures GlobalsIncrease(t.globals)
  {
  }

  /** One transition keeps the number of link rights, less those that it burns. */
  lemma {:induction false} RightsStep(env: Env, mode: Mode, g: Genesis, l: Ledger, o: Opened, t: Transition)
    requires ByID(env.schema) == Some(IFA)
    requires Safe(g, l) && CanonicalTransition(t) && Apply(env, mode, GenesisId(g), l, o, t).Ok?
    ensures Circulating(g, Apply(env, mode, GenesisId(g), l, o, t).value, RIGHTS, One) +
            (if t.ty == BURN then InputCount(t.inputs, RIGHTS) else 0) == Circulating(g, l, RIGHTS, One)
  {
    hide GenesisId, TransitionId, Only, Apply, Safe, Validated, Circulating, CanonicalTransition, Resolution;
    Applied(env, mode, GenesisId(g), l, o, t);
    RightsMove(env, t, Context(GenesisId(g), l.globals), Resolution(l.states));
    StepBalance(env, mode, g, l, o, t, RIGHTS, One);
    CountsSplit(Of(t.assignments, RIGHTS));
    InputsLive(l, o, t);
    CountWeighs(l.states, t.inputs, RIGHTS);
  }

  lemma {:induction false} RightsFall(env: Env, mode: Mode, g: Genesis, l: Ledger, steps: seq<Step>)
    requires ByID(env.schema) == Some(IFA)
    requires Safe(g, l) && CanonicalSteps(steps) && Replay(env, mode, GenesisId(g), l, steps).Ok?
    ensures Circulating(g, Replay(env, mode, GenesisId(g), l, steps).value, RIGHTS, One) <= Circulating(g, l, RIGHTS, One)
    decreases steps
  {
    hide Safe, Apply, GenesisId, CanonicalTransition, Circulating;
    if steps != [] {
      assert CanonicalTransition(steps[0].transition);
      RightsStep(env, mode, g, l, steps[0].host, steps[0].transition);
      KeepsSafe(env, mode, g, l, steps[0].host, steps[0].transition);
      assert forall i :: 0 <= i < |steps[1..]| ==> steps[1..][i] == steps[i + 1];
      RightsFall(env, mode, g, Apply(env, mode, GenesisId(g), l, steps[0].host, steps[0].transition).value, steps[1..]);
    }
  }

  lemma {:induction false} GenesisRights(env: Env, g: Genesis)
    requires CanonicalGenesis(g) && GenesisError(env.schema, env.types, g) == None && ByID(env.schema) == Some(IFA)
    ensures |Of(g.assignments, RIGHTS)| <= 1
  {
    hide GenesisScriptError, GenesisError, TotalsOf, GlobalsOf, MetadataDecodes, GlobalsFit, EntryFits, CanonicalMetadata;
    KindIs(env.schema);
    GenesisExactly(env.schema, env.types, g);
    assert RIGHTS in env.schema.genesis.assignments;
  }

  /** At every point of every accepted history there is at most one link right, disclosed or concealed. */
  lemma {:induction false} OneLinkRight(env: Env, mode: Mode, g: Genesis, steps: seq<Step>, l: Ledger)
    requires ByID(env.schema) == Some(IFA) && Reaches(env, mode, g, steps, l)
    ensures Circulating(g, l, RIGHTS, One) <= 1
  {
    hide GenesisId, Circulating, GenesisError, Start, Safe, Replay;
    GenesisRights(env, g);
    StartBalance(g, RIGHTS, One);
    CountsSplit(Of(g.assignments, RIGHTS));
    SafeStart(g);
    RightsFall(env, mode, g, Start(g).value, steps);
  }
}
