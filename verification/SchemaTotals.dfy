/** What the totals of an accepted operation mean: plain sums and lists over its
    assignments and inputs, without wrap-around. */
module SchemaTotals {
  import opened Bytes
  import opened Catalog
  import opened Operations
  import opened Schemas
  import opened Symbols
  import opened Wrappers

  function AmountIn(s: State): nat {
    if s.Fungible? then s.amount else 0
  }

  function DataIn(s: State): seq<Data> {
    if s.Structured? then [s.data] else []
  }

  // ----- globals

  function ValuesFor(gs: seq<Global>, ty: nat): seq<Data> {
    if gs == [] then [] else if gs[0].ty == ty then gs[0].values else ValuesFor(gs[1..], ty)
  }

  ghost predicate GlobalsIncrease(gs: seq<Global>) {
    forall i, j :: 0 <= i < j < |gs| ==> gs[i].ty < gs[j].ty
  }

  ghost predicate NoGlobal(gs: seq<Global>, ty: nat) {
    forall i :: 0 <= i < |gs| ==> gs[i].ty != ty
  }

  lemma {:induction false} GlobalsMean(s: Schema, types: Types, bounds: map<nat, Occurrence>, gs: seq<Global>, acc: Globals, ty: nat)
    requires GlobalsIncrease(gs) && GlobalsFrom(s, types, bounds, gs, acc).Ok?
    ensures Lookup(GlobalsFrom(s, types, bounds, gs, acc).value.values, ty) == Lookup(acc.values, ty) + ValuesFor(gs, ty)
    ensures NoGlobal(gs, ty) ==> ValuesFor(gs, ty) == []
  {
    if gs != [] {
      var rest := gs[1..];
      assert GlobalsIncrease(rest) by {
        forall i, j | 0 <= i < j < |rest| ensures rest[i].ty < rest[j].ty { assert gs[i + 1].ty < gs[j + 1].ty; }
      }
      GlobalsMean(s, types, bounds, rest,
                  Globals(Append(acc.values, gs[0].ty, gs[0].values), acc.counts[gs[0].ty := |gs[0].values|]), ty);
      if gs[0].ty == ty {
        assert NoGlobal(rest, ty) by {
          forall i | 0 <= i < |rest| ensures rest[i].ty != ty { assert gs[0].ty < gs[i + 1].ty; }
        }
      } else if NoGlobal(gs, ty) {
        forall i | 0 <= i < |rest| ensures rest[i].ty != ty { assert gs[i + 1].ty != ty; }
      }
    }
  }

  // ----- assignments

  /** The assignments of one type. */
  function Of(es: seq<Entry>, ty: nat): seq<Assignment> {
    if es == [] then [] else if es[0].ty == ty then es[0].assigns else Of(es[1..], ty)
  }

  function Sum(assigns: seq<Assignment>): nat {
    if assigns == [] then 0 else AmountIn(assigns[0].state) + Sum(assigns[1..])
  }

  function DataOf(assigns: seq<Assignment>): seq<Data> {
    if assigns == [] then [] else DataIn(assigns[0].state) + DataOf(assigns[1..])
  }

  ghost predicate Increases(es: seq<Entry>) {
    forall i, j :: 0 <= i < j < |es| ==> es[i].ty < es[j].ty
  }

  ghost predicate Uniform(assigns: seq<Assignment>, kind: Class) {
    forall i :: 0 <= i < |assigns| ==> ClassOf(assigns[i].state) == kind
  }

  lemma {:induction false} TallyStep(types: Types, ty: nat, kind: Class, assigns: seq<Assignment>, acc: Owned) returns (next: Owned)
    requires assigns != [] && Tally(types, ty, kind, assigns, acc).Ok?
    ensures Tally(types, ty, kind, assigns, acc) == Tally(types, ty, kind, assigns[1..], next)
    ensures next.count == acc.count && next.sum == acc.sum + AmountIn(assigns[0].state)
    ensures next.raw == acc.raw + DataIn(assigns[0].state)
    ensures ClassOf(assigns[0].state) == kind
  {
    match assigns[0].state {
      case Declarative => next := acc;
      case Fungible(amount) => next := acc.(sum := acc.sum + amount);
      case Structured(data) => next := acc.(raw := acc.raw + [data]);
    }
  }

  lemma {:induction false} TallyMeans(types: Types, ty: nat, kind: Class, assigns: seq<Assignment>, acc: Owned)
    requires Tally(types, ty, kind, assigns, acc).Ok?
    ensures var r := Tally(types, ty, kind, assigns, acc).value;
            r.count == acc.count && r.sum == acc.sum + Sum(assigns) && r.raw == acc.raw + DataOf(assigns)
  {
    if assigns != [] {
      hide Tally, AmountIn, DataIn;
      var next := TallyStep(types, ty, kind, assigns, acc);
      TallyMeans(types, ty, kind, assigns[1..], next);
      assert acc.raw + DataIn(assigns[0].state) + DataOf(assigns[1..]) == acc.raw + DataOf(assigns);
    }
  }

  lemma {:induction false} TallyUniform(types: Types, ty: nat, kind: Class, assigns: seq<Assignment>, acc: Owned)
    requires Tally(types, ty, kind, assigns, acc).Ok?
    ensures Uniform(assigns, kind)
  {
    if assigns != [] {
      hide Tally;
      var next := TallyStep(types, ty, kind, assigns, acc);
      TallyUniform(types, ty, kind, assigns[1..], next);
      assert forall i :: 0 < i < |assigns| ==> assigns[i] == assigns[1..][i - 1];
    }
  }

  /** What the totals of one type are. */
  ghost predicate TotalsAre(m: map<nat, Owned>, es: seq<Entry>, ty: nat) {
    OwnedAt(m, ty) == Owned(|Of(es, ty)|, OwnedAt(m, ty).sum, DataOf(Of(es, ty))) && OwnedAt(m, ty).sum == Sum(Of(es, ty))
  }

  ghost predicate Mentions(es: seq<Entry>, ty: nat) {
    exists i :: 0 <= i < |es| && es[i].ty == ty
  }

  lemma {:induction false} NotMentioned(es: seq<Entry>, ty: nat)
    requires !Mentions(es, ty)
    ensures Of(es, ty) == []
  {
    if es != [] {
      assert es[0].ty != ty;
      forall i | 0 <= i < |es[1..]| ensures es[1..][i].ty != ty { assert es[i + 1].ty != ty; }
      NotMentioned(es[1..], ty);
    }
  }

  lemma {:induction false} IncreasesTail(es: seq<Entry>)
    requires Increases(es) && es != []
    ensures Increases(es[1..]) && !Mentions(es[1..], es[0].ty)
  {
    var rest := es[1..];
    forall i, j | 0 <= i < j < |rest| ensures rest[i].ty < rest[j].ty { assert es[i + 1].ty < es[j + 1].ty; }
    forall i | 0 <= i < |rest| ensures rest[i].ty != es[0].ty { assert es[0].ty < es[i + 1].ty; }
  }

  lemma {:induction false} TotalsMean(s: Schema, types: Types, bounds: map<nat, Occurrence>, es: seq<Entry>, acc: map<nat, Owned>, ty: nat)
    requires Increases(es) && TotalsFrom(s, types, bounds, es, acc).Ok?
    ensures var m := TotalsFrom(s, types, bounds, es, acc).value;
            if Mentions(es, ty) then TotalsAre(m, es, ty) && ty in s.ownedTypes && Uniform(Of(es, ty), s.ownedTypes[ty].kind)
            else OwnedAt(m, ty) == OwnedAt(acc, ty)
  {
    if es != [] {
      var e := es[0];
      IncreasesTail(es);
      TallyMeans(types, e.ty, e.kind, e.assigns, Owned(|e.assigns|, 0, []));
      TallyUniform(types, e.ty, e.kind, e.assigns, Owned(|e.assigns|, 0, []));
      var next := acc[e.ty := EntryTotals(s, types, bounds, e).value];
      TotalsMean(s, types, bounds, es[1..], next, ty);
      if ty != e.ty {
        assert Mentions(es, ty) ==> Mentions(es[1..], ty) by {
          if Mentions(es, ty) {
            var i :| 0 <= i < |es| && es[i].ty == ty;
            assert es[1..][i - 1].ty == ty;
          }
        }
        if Mentions(es[1..], ty) {
          var i :| 0 <= i < |es[1..]| && es[1..][i].ty == ty;
          assert es[i + 1].ty == ty;
        }
      } else {
        assert es[0].ty == ty;
      }
    }
  }

  /** Accepted outputs: for every type the tracked total is the true sum over all
      assignments, concealed ones included, and it fits 64 bits. */
  lemma {:induction false} OutputsMean(s: Schema, types: Types, bounds: map<nat, Occurrence>, es: seq<Entry>, ty: nat)
    requires Increases(es) && TotalsOf(s, types, bounds, es).Ok?
    ensures TotalsAre(TotalsOf(s, types, bounds, es).value, es, ty)
    ensures Of(es, ty) != [] ==> ty in s.ownedTypes && Uniform(Of(es, ty), s.ownedTypes[ty].kind)
  {
    TotalsMean(s, types, bounds, es, map[], ty);
    if !Mentions(es, ty) {
      NotMentioned(es, ty);
    }
  }

  // ----- inputs

  function InputAmount(resolve: InputRef -> Option<State>, inputs: seq<InputRef>, ty: nat): nat {
    if inputs == [] then 0
    else (if inputs[0].ty == ty && resolve(inputs[0]).Some? then AmountIn(resolve(inputs[0]).value) else 0)
         + InputAmount(resolve, inputs[1..], ty)
  }

  function InputData(resolve: InputRef -> Option<State>, inputs: seq<InputRef>, ty: nat): seq<Data> {
    if inputs == [] then []
    else (if inputs[0].ty == ty && resolve(inputs[0]).Some? then DataIn(resolve(inputs[0]).value) else [])
         + InputData(resolve, inputs[1..], ty)
  }

  function InputCount(inputs: seq<InputRef>, ty: nat): nat {
    if inputs == [] then 0 else (if inputs[0].ty == ty then 1 else 0) + InputCount(inputs[1..], ty)
  }

  lemma {:induction false} AddInputMeans(s: Schema, bounds: map<nat, Occurrence>, resolve: InputRef -> Option<State>, input: InputRef, acc: Inputs, ty: nat)
    requires AddInput(s, bounds, resolve, input, acc).Ok?
    ensures var r := AddInput(s, bounds, resolve, input, acc).value;
            && resolve(input).Some?
            && input.ty in s.ownedTypes && ClassOf(resolve(input).value) == s.ownedTypes[input.ty].kind
            && At(r.amounts, ty) == At(acc.amounts, ty) + (if input.ty == ty then AmountIn(resolve(input).value) else 0)
            && At(r.counts, ty) == At(acc.counts, ty) + (if input.ty == ty then 1 else 0)
            && Lookup(r.data, ty) == Lookup(acc.data, ty) + (if input.ty == ty then DataIn(resolve(input).value) else [])
  {
  }

  ghost predicate AllResolved(s: Schema, resolve: InputRef -> Option<State>, inputs: seq<InputRef>) {
    forall i :: 0 <= i < |inputs| ==>
      resolve(inputs[i]).Some? && inputs[i].ty in s.ownedTypes && ClassOf(resolve(inputs[i]).value) == s.ownedTypes[inputs[i].ty].kind
  }

  /** Accepted inputs: the tracked totals are the true sums, counts and lists. */
  lemma {:induction false} InputsMean(s: Schema, bounds: map<nat, Occurrence>, resolve: InputRef -> Option<State>, inputs: seq<InputRef>, acc: Inputs, ty: nat)
    requires InputsFrom(s, bounds, resolve, inputs, acc).Ok?
    ensures var r := InputsFrom(s, bounds, resolve, inputs, acc).value;
            && At(r.amounts, ty) == At(acc.amounts, ty) + InputAmount(resolve, inputs, ty)
            && At(r.counts, ty) == At(acc.counts, ty) + InputCount(inputs, ty)
            && Lookup(r.data, ty) == Lookup(acc.data, ty) + InputData(resolve, inputs, ty)
  {
    hide AddInput, At, Lookup;
    if inputs != [] {
      AddInputMeans(s, bounds, resolve, inputs[0], acc, ty);
      var next := AddInput(s, bounds, resolve, inputs[0], acc).value;
      InputsMean(s, bounds, resolve, inputs[1..], next, ty);
      assert InputData(resolve, inputs, ty) ==
             (if inputs[0].ty == ty then DataIn(resolve(inputs[0]).value) else []) + InputData(resolve, inputs[1..], ty);
    }
  }

  lemma {:induction false} InputsResolve(s: Schema, bounds: map<nat, Occurrence>, resolve: InputRef -> Option<State>, inputs: seq<InputRef>, acc: Inputs)
    requires InputsFrom(s, bounds, resolve, inputs, acc).Ok?
    ensures AllResolved(s, resolve, inputs)
  {
    hide AddInput;
    if inputs != [] {
      AddInputMeans(s, bounds, resolve, inputs[0], acc, inputs[0].ty);
      InputsResolve(s, bounds, resolve, inputs[1..], AddInput(s, bounds, resolve, inputs[0], acc).value);
      forall i | 0 <= i < |inputs|
        ensures resolve(inputs[i]).Some? && inputs[i].ty in s.ownedTypes && ClassOf(resolve(inputs[i]).value) == s.ownedTypes[inputs[i].ty].kind
      {
        assert i > 0 ==> inputs[i] == inputs[1..][i - 1];
      }
    }
  }

  /** What validation establishes about an accepted transition, type by type. */
  lemma {:induction false} ValidatedMeans(s: Schema, types: Types, t: Transition, context: Context, resolve: InputRef -> Option<State>, ty: nat)
    requires Increases(t.assignments) && Validated(s, types, t, context, resolve).Ok?
    ensures t.inputs != [] && t.contractId == context.contract && ByID(s).Some?
    ensures var c := Validated(s, types, t, context, resolve).value;
            && TotalsAre(c.outputs, t.assignments, ty)
            && At(c.inputs.amounts, ty) == InputAmount(resolve, t.inputs, ty)
            && At(c.inputs.counts, ty) == InputCount(t.inputs, ty)
            && Lookup(c.inputs.data, ty) == InputData(resolve, t.inputs, ty)
            && ScriptError(ByID(s).value, types, t, TransitionId(t), context, c) == None
            && MetadataAmounts(s, types, t.metadata, map[]) == Ok(c.metadata)
    ensures AllResolved(s, resolve, t.inputs)
    ensures Of(t.assignments, ty) != [] ==> ty in s.ownedTypes && Uniform(Of(t.assignments, ty), s.ownedTypes[ty].kind)
  {
    hide ScriptError, TransitionId, TotalsOf, InputsFrom, MetadataError, MetadataAmounts, GlobalsOf, Within, WellBounded, TotalsAre;
    var op := s.transitions[t.ty];
    OutputsMean(s, types, op.assignments, t.assignments, ty);
    InputsMean(s, op.inputs, resolve, t.inputs, Inputs(map[], map[], map[]), ty);
    InputsResolve(s, op.inputs, resolve, t.inputs, Inputs(map[], map[], map[]));
  }
}
