/** Exactly when an operation conforms to its schema: conditions on its parts, without loops. */
module SchemaAccepts {
  import opened Bytes
  import opened Catalog
  import opened Commitments
  import opened Operations
  import opened Schemas
  import opened SchemaTotals
  import opened Symbols
  import opened Wrappers

  // ----- metadata

  /** Every entry is allowed, declared, and decodes to an amount. */
  ghost predicate MetadataFits(s: Schema, types: Types, allowed: set<nat>, ms: seq<Meta>) {
    forall i :: 0 <= i < |ms| ==> MetaFits(s, types, allowed, ms[i])
  }

  predicate MetaFits(s: Schema, types: Types, allowed: set<nat>, m: Meta) {
    m.ty in allowed && m.ty in s.metaTypes && types.meta(m.ty, m.value).Amount?
  }

  lemma {:induction false} MetadataExactly(s: Schema, types: Types, allowed: set<nat>, ms: seq<Meta>, acc: map<nat, u64>)
    ensures MetadataError(s, types, allowed, ms) == None && MetadataAmounts(s, types, ms, acc).Ok? <==>
            MetadataFits(s, types, allowed, ms)
  {
    if ms != [] {
      var rest := ms[1..];
      assert MetadataFits(s, types, allowed, ms) <==> MetaFits(s, types, allowed, ms[0]) && MetadataFits(s, types, allowed, rest) by {
        assert forall i :: 0 <= i < |rest| ==> rest[i] == ms[i + 1];
        assert forall i :: 0 < i < |ms| ==> ms[i] == rest[i - 1];
      }
      if types.meta(ms[0].ty, ms[0].value).Amount? {
        MetadataExactly(s, types, allowed, rest, acc[ms[0].ty := types.meta(ms[0].ty, ms[0].value).value]);
      }
    }
  }

  // ----- globals

  /** Every type is allowed and declared and all its values decode; and every allowed
      type, an absent one too, occurs as often as it may. */
  ghost predicate GlobalsFit(s: Schema, types: Types, bounds: map<nat, Occurrence>, gs: seq<Global>) {
    && WellBounded(bounds)
    && (forall i :: 0 <= i < |gs| ==> GlobalFits(s, types, bounds, gs[i]))
    && (forall id :: id in bounds ==> bounds[id].min <= |ValuesFor(gs, id)| <= bounds[id].max)
  }

  predicate GlobalFits(s: Schema, types: Types, bounds: map<nat, Occurrence>, g: Global) {
    g.ty in bounds && g.ty in s.globalTypes && WellFormedValues(types, g.ty, g.values)
  }

  lemma {:induction false} IncreaseTail(gs: seq<Global>)
    requires GlobalsIncrease(gs) && gs != []
    ensures GlobalsIncrease(gs[1..]) && NoGlobal(gs[1..], gs[0].ty)
  {
    var rest := gs[1..];
    forall i, j | 0 <= i < j < |rest| ensures rest[i].ty < rest[j].ty { assert gs[i + 1].ty < gs[j + 1].ty; }
    forall i | 0 <= i < |rest| ensures rest[i].ty != gs[0].ty { assert gs[0].ty < gs[i + 1].ty; }
  }

  /** The count kept for a type: of its one entry, else what it was before. */
  lemma {:induction false} CountsMean(s: Schema, types: Types, bounds: map<nat, Occurrence>, gs: seq<Global>, acc: Globals, ty: nat)
    requires GlobalsIncrease(gs)
    ensures GlobalsFrom(s, types, bounds, gs, acc).Ok? <==> forall i :: 0 <= i < |gs| ==> GlobalFits(s, types, bounds, gs[i])
    ensures GlobalsFrom(s, types, bounds, gs, acc).Ok? ==>
              At(GlobalsFrom(s, types, bounds, gs, acc).value.counts, ty) ==
              if NoGlobal(gs, ty) then At(acc.counts, ty) else |ValuesFor(gs, ty)|
  {
    hide WellFormedValues, Append;
    if gs != [] {
      var g, rest := gs[0], gs[1..];
      IncreaseTail(gs);
      var next := Globals(Append(acc.values, g.ty, g.values), acc.counts[g.ty := |g.values|]);
      CountsMean(s, types, bounds, rest, next, ty);
      assert forall i :: 0 <= i < |rest| ==> rest[i] == gs[i + 1];
      assert forall i :: 0 < i < |gs| ==> gs[i] == rest[i - 1];
      assert NoGlobal(gs, ty) <==> g.ty != ty && NoGlobal(rest, ty);
    }
  }

  lemma {:induction false} AbsentGlobal(gs: seq<Global>, ty: nat)
    requires NoGlobal(gs, ty)
    ensures ValuesFor(gs, ty) == []
  {
    if gs != [] {
      assert gs[0].ty != ty;
      forall i | 0 <= i < |gs[1..]| ensures gs[1..][i].ty != ty { assert gs[i + 1].ty != ty; }
      AbsentGlobal(gs[1..], ty);
    }
  }

  lemma {:induction false} GlobalsExactly(s: Schema, types: Types, bounds: map<nat, Occurrence>, gs: seq<Global>)
    requires GlobalsIncrease(gs)
    ensures GlobalsOf(s, types, bounds, gs).Ok? <==> GlobalsFit(s, types, bounds, gs)
  {
    hide GlobalsFrom, WellBounded, GlobalFits;
    var start := Globals(map[], map[]);
    CountsMean(s, types, bounds, gs, start, 0);
    forall id | id in bounds && GlobalsFrom(s, types, bounds, gs, start).Ok?
      ensures At(GlobalsFrom(s, types, bounds, gs, start).value.counts, id) == |ValuesFor(gs, id)|
    {
      CountsMean(s, types, bounds, gs, start, id);
      if NoGlobal(gs, id) { AbsentGlobal(gs, id); }
    }
  }

  // ----- assignments

  ghost predicate WellFormedData(types: Types, ty: nat, assigns: seq<Assignment>) {
    forall i :: 0 <= i < |assigns| ==> assigns[i].state.Structured? ==> types.owned(ty, assigns[i].state.data)
  }

  /** Assignments of one type, of one class, that decode and whose true sum fits 64 bits. */
  ghost predicate AssignmentsFit(types: Types, ty: nat, kind: Class, assigns: seq<Assignment>, sum: nat) {
    Uniform(assigns, kind) && WellFormedData(types, ty, assigns) && sum + Sum(assigns) < U64
  }

  lemma {:induction false} FitCons(types: Types, ty: nat, kind: Class, assigns: seq<Assignment>, sum: nat)
    requires assigns != []
    ensures AssignmentsFit(types, ty, kind, assigns, sum) <==>
            && ClassOf(assigns[0].state) == kind && (assigns[0].state.Structured? ==> types.owned(ty, assigns[0].state.data))
            && AssignmentsFit(types, ty, kind, assigns[1..], sum + AmountIn(assigns[0].state))
  {
    var rest := assigns[1..];
    assert forall i :: 0 <= i < |rest| ==> rest[i] == assigns[i + 1];
    assert forall i :: 0 < i < |assigns| ==> assigns[i] == rest[i - 1];
  }

  lemma {:induction false} TallyExactly(types: Types, ty: nat, kind: Class, assigns: seq<Assignment>, acc: Owned)
    ensures Tally(types, ty, kind, assigns, acc).Ok? <==> AssignmentsFit(types, ty, kind, assigns, acc.sum)
  {
    hide AssignmentsFit;
    if assigns == [] {
      NothingFits(types, ty, kind, acc.sum);
    } else {
      FitCons(types, ty, kind, assigns, acc.sum);
      match assigns[0].state {
        case Declarative => TallyExactly(types, ty, kind, assigns[1..], acc);
        case Fungible(amount) =>
          if acc.sum + amount < U64 {
            TallyExactly(types, ty, kind, assigns[1..], acc.(sum := acc.sum + amount));
          } else {
            TooMuch(types, ty, kind, assigns[1..], acc.sum + amount);
          }
        case Structured(data) => TallyExactly(types, ty, kind, assigns[1..], acc.(raw := acc.raw + [data]));
      }
    }
  }

  lemma {:induction false} NothingFits(types: Types, ty: nat, kind: Class, sum: nat)
    ensures AssignmentsFit(types, ty, kind, [], sum) <==> sum < U64
  {
  }

  lemma {:induction false} TooMuch(types: Types, ty: nat, kind: Class, assigns: seq<Assignment>, sum: nat)
    requires sum >= U64
    ensures !AssignmentsFit(types, ty, kind, assigns, sum)
  {
  }

  ghost predicate EntryFits(s: Schema, types: Types, bounds: map<nat, Occurrence>, e: Entry) {
    && e.ty in bounds && e.ty in s.ownedTypes && s.ownedTypes[e.ty].kind == e.kind
    && (e.kind == FungibleClass ==> s.ownedTypes[e.ty].is64)
    && AssignmentsFit(types, e.ty, e.kind, e.assigns, 0)
  }

  /** Every type is allowed, declared and of its class, its states decode and their true sum
      fits 64 bits; and every allowed type occurs as often as it may. */
  ghost predicate OutputsFit(s: Schema, types: Types, bounds: map<nat, Occurrence>, es: seq<Entry>) {
    && WellBounded(bounds)
    && (forall i :: 0 <= i < |es| ==> EntryFits(s, types, bounds, es[i]))
    && (forall id :: id in bounds ==> bounds[id].min <= |Of(es, id)| <= bounds[id].max)
  }

  lemma {:induction false} EntryExactly(s: Schema, types: Types, bounds: map<nat, Occurrence>, e: Entry)
    ensures EntryTotals(s, types, bounds, e).Ok? <==> EntryFits(s, types, bounds, e)
  {
    hide Tally, AssignmentsFit;
    TallyExactly(types, e.ty, e.kind, e.assigns, Owned(|e.assigns|, 0, []));
  }

  lemma {:induction false} EntriesExactly(s: Schema, types: Types, bounds: map<nat, Occurrence>, es: seq<Entry>, acc: map<nat, Owned>)
    ensures TotalsFrom(s, types, bounds, es, acc).Ok? <==> forall i :: 0 <= i < |es| ==> EntryFits(s, types, bounds, es[i])
  {
    hide EntryTotals, EntryFits;
    if es != [] {
      EntryExactly(s, types, bounds, es[0]);
      assert forall i :: 0 <= i < |es[1..]| ==> es[1..][i] == es[i + 1];
      assert forall i :: 0 < i < |es| ==> es[i] == es[1..][i - 1];
      if EntryTotals(s, types, bounds, es[0]).Ok? {
        EntriesExactly(s, types, bounds, es[1..], acc[es[0].ty := EntryTotals(s, types, bounds, es[0]).value]);
      }
    }
  }

  lemma {:induction false} OutputsExactly(s: Schema, types: Types, bounds: map<nat, Occurrence>, es: seq<Entry>)
    requires Increases(es)
    ensures TotalsOf(s, types, bounds, es).Ok? <==> OutputsFit(s, types, bounds, es)
  {
    hide TotalsFrom, EntryFits, WellBounded;
    EntriesExactly(s, types, bounds, es, map[]);
    forall id | id in bounds && TotalsFrom(s, types, bounds, es, map[]).Ok?
      ensures At(Counts(TotalsFrom(s, types, bounds, es, map[]).value), id) == |Of(es, id)|
    {
      TotalsMean(s, types, bounds, es, map[], id);
      if !Mentions(es, id) { NotMentioned(es, id); }
    }
  }

  // ----- inputs

  predicate InputFits(s: Schema, bounds: map<nat, Occurrence>, resolve: InputRef -> Option<State>, input: InputRef) {
    && input.ty in bounds && input.ty in s.ownedTypes && resolve(input).Some?
    && ClassOf(resolve(input).value) == s.ownedTypes[input.ty].kind
  }

  ghost predicate AmountsFit(resolve: InputRef -> Option<State>, inputs: seq<InputRef>) {
    forall ty :: InputAmount(resolve, inputs, ty) < U64
  }

  /** Every input resolves to a state of its declared class, the true sums by type fit
      64 bits, and every allowed type occurs as often as it may. */
  ghost predicate InputsFit(s: Schema, bounds: map<nat, Occurrence>, resolve: InputRef -> Option<State>, inputs: seq<InputRef>) {
    && WellBounded(bounds)
    && (forall i :: 0 <= i < |inputs| ==> InputFits(s, bounds, resolve, inputs[i]))
    && AmountsFit(resolve, inputs)
    && (forall id :: id in bounds ==> bounds[id].min <= InputCount(inputs, id) <= bounds[id].max)
  }

  /** The guard refuses exactly a sum that does not fit. */
  lemma {:induction false} AddInputExactly(s: Schema, bounds: map<nat, Occurrence>, resolve: InputRef -> Option<State>, input: InputRef, acc: Inputs)
    ensures AddInput(s, bounds, resolve, input, acc).Ok? <==>
            InputFits(s, bounds, resolve, input) && At(acc.amounts, input.ty) + AmountIn(resolve(input).value) < U64
  {
  }

  /** Amounts that stay below 2^64 when the inputs are added. */
  ghost predicate SumsFit(resolve: InputRef -> Option<State>, inputs: seq<InputRef>, amounts: map<nat, u64>) {
    forall ty :: At(amounts, ty) + InputAmount(resolve, inputs, ty) < U64
  }

  lemma {:induction false} InputsFromExactly(s: Schema, bounds: map<nat, Occurrence>, resolve: InputRef -> Option<State>, inputs: seq<InputRef>, acc: Inputs)
    ensures InputsFrom(s, bounds, resolve, inputs, acc).Ok? <==>
            (forall i :: 0 <= i < |inputs| ==> InputFits(s, bounds, resolve, inputs[i])) && SumsFit(resolve, inputs, acc.amounts)
  {
    hide AddInput, At, InputFits, AmountIn;
    if inputs == [] {
      EmptySums(resolve, acc.amounts);
    } else {
      var first, rest := inputs[0], inputs[1..];
      AddInputExactly(s, bounds, resolve, first, acc);
      assert forall i :: 0 <= i < |rest| ==> rest[i] == inputs[i + 1];
      assert forall i :: 0 < i < |inputs| ==> inputs[i] == rest[i - 1];
      if AddInput(s, bounds, resolve, first, acc).Ok? {
        var next := AddInput(s, bounds, resolve, first, acc).value;
        InputsFromExactly(s, bounds, resolve, rest, next);
        forall ty ensures At(next.amounts, ty) + InputAmount(resolve, rest, ty) == At(acc.amounts, ty) + InputAmount(resolve, inputs, ty) {
          AddInputMeans(s, bounds, resolve, first, acc, ty);
        }
      } else if InputFits(s, bounds, resolve, first) {
        Overflows(s, bounds, resolve, inputs, acc);
      }
    }
  }

  lemma {:induction false} EmptySums(resolve: InputRef -> Option<State>, amounts: map<nat, u64>)
    ensures SumsFit(resolve, [], amounts)
  {
  }

  lemma {:induction false} Overflows(s: Schema, bounds: map<nat, Occurrence>, resolve: InputRef -> Option<State>, inputs: seq<InputRef>, acc: Inputs)
    requires inputs != [] && InputFits(s, bounds, resolve, inputs[0]) && AddInput(s, bounds, resolve, inputs[0], acc).Err?
    ensures !SumsFit(resolve, inputs, acc.amounts)
  {
    AddInputExactly(s, bounds, resolve, inputs[0], acc);
    assert At(acc.amounts, inputs[0].ty) + InputAmount(resolve, inputs, inputs[0].ty) >= U64;
  }

  lemma {:induction false} SumsFromNothing(resolve: InputRef -> Option<State>, inputs: seq<InputRef>, amounts: map<nat, u64>)
    requires amounts == map[]
    ensures SumsFit(resolve, inputs, amounts) <==> AmountsFit(resolve, inputs)
  {
    if SumsFit(resolve, inputs, amounts) {
      forall ty: nat ensures InputAmount(resolve, inputs, ty) < U64 {
        assert At(amounts, ty) + InputAmount(resolve, inputs, ty) < U64;
      }
      assert AmountsFit(resolve, inputs);
    }
    if AmountsFit(resolve, inputs) {
      forall ty: nat ensures At(amounts, ty) + InputAmount(resolve, inputs, ty) < U64 {
        assert InputAmount(resolve, inputs, ty) < U64;
      }
      assert SumsFit(resolve, inputs, amounts);
    }
  }

  lemma {:induction false} InputsExactly(s: Schema, bounds: map<nat, Occurrence>, resolve: InputRef -> Option<State>, inputs: seq<InputRef>)
    ensures InputsOf(s, bounds, resolve, inputs).Ok? <==> InputsFit(s, bounds, resolve, inputs)
  {
    hide InputsFrom, WellBounded, InputFits;
    var start := Inputs(map[], map[], map[]);
    InputsFromExactly(s, bounds, resolve, inputs, start);
    if InputsFrom(s, bounds, resolve, inputs, start).Ok? {
      forall id | id in bounds ensures At(InputsFrom(s, bounds, resolve, inputs, start).value.counts, id) == InputCount(inputs, id) {
        InputsMean(s, bounds, resolve, inputs, start, id);
      }
    }
    SumsFromNothing(resolve, inputs, start.amounts);
  }

  // ----- operations

  ghost predicate Conforms(s: Schema, types: Types, t: Transition, contract: Digest, resolve: InputRef -> Option<State>) {
    && ByID(s).Some? && t.inputs != [] && t.contractId == contract && t.ty in s.transitions
    && var op := s.transitions[t.ty];
       && MetadataFits(s, types, op.metadata, t.metadata)
       && GlobalsFit(s, types, op.globals, t.globals)
       && OutputsFit(s, types, op.assignments, t.assignments)
       && InputsFit(s, op.inputs, resolve, t.inputs)
  }

  /** A transition is accepted exactly when it is of this contract, has inputs, conforms in
      all its parts to its type in a known schema, and the rule of the schema holds of its totals. */
  lemma {:induction false} ValidatedExactly(s: Schema, types: Types, t: Transition, context: Context, resolve: InputRef -> Option<State>)
    requires Increases(t.assignments) && GlobalsIncrease(t.globals)
    ensures Conforms(s, types, t, context.contract, resolve) ==> Conforming(s, types, t, resolve).Ok?
    ensures Validated(s, types, t, context, resolve).Ok? <==>
            && Conforms(s, types, t, context.contract, resolve)
            && ScriptError(ByID(s).value, types, t, TransitionId(t), context, Conforming(s, types, t, resolve).value) == None
  {
    hide ScriptError, TransitionId, TotalsOf, InputsOf, GlobalsOf, MetadataError, MetadataAmounts, MetadataFits, GlobalsFit, OutputsFit, InputsFit;
    if t.ty in s.transitions {
      var op := s.transitions[t.ty];
      MetadataExactly(s, types, op.metadata, t.metadata, map[]);
      GlobalsExactly(s, types, op.globals, t.globals);
      OutputsExactly(s, types, op.assignments, t.assignments);
      InputsExactly(s, op.inputs, resolve, t.inputs);
    }
  }

  ghost predicate MetadataDecodes(s: Schema, types: Types, allowed: set<nat>, ms: seq<Meta>) {
    forall i :: 0 <= i < |ms| ==> ms[i].ty in allowed && ms[i].ty in s.metaTypes && !types.meta(ms[i].ty, ms[i].value).Malformed?
  }

  lemma {:induction false} MetadataDecodesExactly(s: Schema, types: Types, allowed: set<nat>, ms: seq<Meta>)
    ensures MetadataError(s, types, allowed, ms) == None <==> MetadataDecodes(s, types, allowed, ms)
  {
    if ms != [] {
      MetadataDecodesExactly(s, types, allowed, ms[1..]);
      assert forall i :: 0 <= i < |ms[1..]| ==> ms[1..][i] == ms[i + 1];
      assert forall i :: 0 < i < |ms| ==> ms[i] == ms[1..][i - 1];
    }
  }

  /** A genesis is accepted exactly when it conforms to a known schema and the rule of the
      schema holds of its globals and totals. */
  lemma {:induction false} GenesisExactly(s: Schema, types: Types, g: Genesis)
    requires Increases(g.assignments) && GlobalsIncrease(g.globals)
    ensures GlobalsFit(s, types, s.genesis.globals, g.globals) ==> GlobalsOf(s, types, s.genesis.globals, g.globals).Ok?
    ensures OutputsFit(s, types, s.genesis.assignments, g.assignments) ==> TotalsOf(s, types, s.genesis.assignments, g.assignments).Ok?
    ensures GenesisError(s, types, g) == None <==>
            && ByID(s).Some? && MetadataDecodes(s, types, s.genesis.metadata, g.metadata)
            && GlobalsFit(s, types, s.genesis.globals, g.globals) && OutputsFit(s, types, s.genesis.assignments, g.assignments)
            && GenesisScriptError(ByID(s).value, types, GlobalsOf(s, types, s.genesis.globals, g.globals).value,
                                  TotalsOf(s, types, s.genesis.assignments, g.assignments).value) == None
  {
    hide GenesisScriptError, TotalsOf, GlobalsOf, MetadataError, MetadataDecodes, GlobalsFit, OutputsFit;
    MetadataDecodesExactly(s, types, s.genesis.metadata, g.metadata);
    GlobalsExactly(s, types, s.genesis.globals, g.globals);
    OutputsExactly(s, types, s.genesis.assignments, g.assignments);
  }

  // ----- schemas in which operation ids identify operations

  /** No declared type is 2, as in all five standard schemas. */
  predicate NoTypeTwoDeclared(s: Schema) {
    2 !in s.ownedTypes && 2 !in s.globalTypes
  }

  /** Of PFA the catalogue holds only the id. */
  lemma {:induction false} StandardNoTypeTwo(s: Schema)
    requires ByID(s).Some? && ByID(s) != Some(PFA)
    ensures NoTypeTwoDeclared(s)
  {
    KindIs(s);
  }

  lemma {:induction false} FitNoTypeTwo(s: Schema, types: Types, globals: map<nat, Occurrence>, owned: map<nat, Occurrence>, gs: seq<Global>, es: seq<Entry>)
    requires NoTypeTwoDeclared(s) && GlobalsFit(s, types, globals, gs) && OutputsFit(s, types, owned, es)
    ensures NoTypeTwo(gs, es)
  {
    hide WellFormedValues, AssignmentsFit, WellBounded;
    forall i | 0 <= i < |gs| ensures gs[i].ty != 2 { assert GlobalFits(s, types, globals, gs[i]); }
    forall i | 0 <= i < |es| ensures es[i].ty != 2 { assert EntryFits(s, types, owned, es[i]); }
  }

  /** Under such a schema no accepted operation has globals or assignments of type 2. */
  lemma {:induction false} ValidatedNoTypeTwo(s: Schema, types: Types, t: Transition, context: Context, resolve: InputRef -> Option<State>)
    requires NoTypeTwoDeclared(s) && Increases(t.assignments) && GlobalsIncrease(t.globals)
    requires Validated(s, types, t, context, resolve).Ok?
    ensures NoTypeTwo(t.globals, t.assignments)
  {
    hide ScriptError, TransitionId, Validated, Conforming, MetadataFits, GlobalsFit, OutputsFit, InputsFit;
    ValidatedExactly(s, types, t, context, resolve);
    FitNoTypeTwo(s, types, s.transitions[t.ty].globals, s.transitions[t.ty].assignments, t.globals, t.assignments);
  }

  lemma {:induction false} GenesisNoTypeTwo(s: Schema, types: Types, g: Genesis)
    requires NoTypeTwoDeclared(s) && Increases(g.assignments) && GlobalsIncrease(g.globals) && GenesisError(s, types, g) == None
    ensures NoTypeTwo(g.globals, g.assignments)
  {
    hide GenesisScriptError, GenesisError, TotalsOf, GlobalsOf, MetadataDecodes, GlobalsFit, OutputsFit;
    GenesisExactly(s, types, g);
    FitNoTypeTwo(s, types, s.genesis.globals, s.genesis.assignments, g.globals, g.assignments);
  }
}
