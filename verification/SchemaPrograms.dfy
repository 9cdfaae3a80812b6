/** The validation of one operation, loop by loop. */
module SchemaPrograms {
  import opened Bytes
  import opened Catalog
  import opened Operations
  import opened Schemas
  import opened SchemaTotals
  import opened Symbols
  import opened Wrappers

  method ValidateMetadata(s: Schema, types: Types, allowed: set<nat>, ms: seq<Meta>) returns (e: Option<Refusal>)
    ensures e == MetadataError(s, types, allowed, ms)
  {
    for i := 0 to |ms|
      invariant MetadataError(s, types, allowed, ms) == MetadataError(s, types, allowed, ms[i..])
    {
      var id := ms[i].ty;
      assert ms[i..][1..] == ms[i + 1..];
      if id !in allowed || id !in s.metaTypes {
        return Some(Conformance);
      }
      if types.meta(id, ms[i].value).Malformed? {
        return Some(StateType);
      }
    }
    return None;
  }

  method DecodeMetadata(s: Schema, types: Types, ms: seq<Meta>) returns (r: Result<map<nat, u64>, Refusal>)
    ensures r == MetadataAmounts(s, types, ms, map[])
  {
    var amounts: map<nat, u64> := map[];
    for i := 0 to |ms|
      invariant MetadataAmounts(s, types, ms, map[]) == MetadataAmounts(s, types, ms[i..], amounts)
    {
      assert ms[i..][1..] == ms[i + 1..];
      var decoded := types.meta(ms[i].ty, ms[i].value);
      if ms[i].ty !in s.metaTypes || !decoded.Amount? {
        return Err(StateType);
      }
      amounts := amounts[ms[i].ty := decoded.value];
    }
    return Ok(amounts);
  }

  /** Every constrained type occurs as often as its bounds allow, absent ones zero times. */
  method EnforceOccurrences(bounds: map<nat, Occurrence>, counts: map<nat, nat>) returns (ok: bool)
    ensures ok <==> Within(bounds, counts)
  {
    var left := bounds.Keys;
    while left != {}
      invariant left <= bounds.Keys
      invariant forall id :: id in bounds && id !in left ==> bounds[id].min <= At(counts, id) <= bounds[id].max
      decreases |left|
    {
      var id :| id in left;
      if At(counts, id) < bounds[id].min || At(counts, id) > bounds[id].max {
        return false;
      }
      left := left - {id};
    }
    return true;
  }

  method OccurrenceMap(bounds: map<nat, Occurrence>) returns (ok: bool)
    ensures ok <==> WellBounded(bounds)
  {
    var left := bounds.Keys;
    while left != {}
      invariant left <= bounds.Keys
      invariant forall id :: id in bounds && id !in left ==> bounds[id].min <= bounds[id].max
      decreases |left|
    {
      var id :| id in left;
      if bounds[id].min > bounds[id].max {
        return false;
      }
      left := left - {id};
    }
    return true;
  }

  // ----- globals

  /** The values of one type, decoded and appended one by one. */
  method AppendDecoded(types: Types, ty: nat, values: seq<Data>, start: Values) returns (r: Option<Values>)
    ensures r == if WellFormedValues(types, ty, values) then Some(Append(start, ty, values)) else None
  {
    var result := start;
    for j := 0 to |values|
      invariant WellFormedValues(types, ty, values[..j])
      invariant result == Append(start, ty, values[..j])
    {
      if types.global(ty, values[j]).Malformed? {
        return None;
      }
      AppendMore(start, ty, values, j);
      assert WellFormedValues(types, ty, values[..j + 1]);
      result := result[ty := Lookup(result, ty) + [values[j]]];
    }
    assert values[..|values|] == values;
    return Some(result);
  }

  lemma {:induction false} AppendMore(start: Values, ty: nat, values: seq<Data>, j: nat)
    requires j < |values|
    ensures var m := Append(start, ty, values[..j]);
            Append(start, ty, values[..j + 1]) == m[ty := Lookup(m, ty) + [values[j]]]
  {
    var m := Append(start, ty, values[..j]);
    assert values[..j + 1] == values[..j] + [values[j]];
    assert Lookup(m, ty) == Lookup(start, ty) + values[..j];
    assert Lookup(m, ty) + [values[j]] == Lookup(start, ty) + values[..j + 1];
  }

  method ValidateGlobals(s: Schema, types: Types, bounds: map<nat, Occurrence>, gs: seq<Global>) returns (r: Result<Values, Refusal>)
    ensures r == GlobalsOf(s, types, bounds, gs)
  {
    hide Append, WellFormedValues, Within, WellBounded;
    var wellBounded := OccurrenceMap(bounds);
    if !wellBounded {
      return Err(Conformance);
    }
    var values: Values, counts: map<nat, nat> := map[], map[];
    for i := 0 to |gs|
      invariant GlobalsFrom(s, types, bounds, gs, Globals(map[], map[])) ==
                GlobalsFrom(s, types, bounds, gs[i..], Globals(values, counts))
    {
      var entry := gs[i];
      assert gs[i..][1..] == gs[i + 1..] && gs[i..][0] == entry;
      if entry.ty !in bounds || entry.ty !in s.globalTypes {
        return Err(Conformance);
      }
      var appended := AppendDecoded(types, entry.ty, entry.values, values);
      if appended.None? {
        return Err(StateType);
      }
      values, counts := appended.value, counts[entry.ty := |entry.values|];
    }
    var within := EnforceOccurrences(bounds, counts);
    return if within then Ok(values) else Err(Conformance);
  }

  // ----- assignments

  method SumAssignments(types: Types, ty: nat, kind: Class, assigns: seq<Assignment>) returns (r: Result<Owned, Refusal>)
    ensures r == Tally(types, ty, kind, assigns, Owned(|assigns|, 0, []))
  {
    var sum: u64, raw: seq<Data> := 0, [];
    for i := 0 to |assigns|
      invariant Tally(types, ty, kind, assigns, Owned(|assigns|, 0, [])) ==
                Tally(types, ty, kind, assigns[i..], Owned(|assigns|, sum, raw))
    {
      assert assigns[i..][1..] == assigns[i + 1..] && assigns[i..][0] == assigns[i];
      match assigns[i].state {
        case Declarative =>
          if kind != DeclarativeClass {
            return Err(StateType);
          }
        case Fungible(amount) =>
          if kind != FungibleClass || U64 - 1 - sum < amount {
            return Err(StateType);
          }
          sum := sum + amount;
        case Structured(data) =>
          if kind != StructuredClass || !types.owned(ty, data) {
            return Err(StateType);
          }
          raw := raw + [data];
      }
    }
    return Ok(Owned(|assigns|, sum, raw));
  }

  method ValidateAssignments(s: Schema, types: Types, bounds: map<nat, Occurrence>, es: seq<Entry>) returns (r: Result<map<nat, Owned>, Refusal>)
    ensures r == TotalsOf(s, types, bounds, es)
  {
    hide Within, WellBounded, Tally;
    var wellBounded := OccurrenceMap(bounds);
    if !wellBounded {
      return Err(Conformance);
    }
    var totals: map<nat, Owned> := map[];
    var counts: map<nat, nat> := map[];
    for i := 0 to |es|
      invariant counts == Counts(totals)
      invariant TotalsFrom(s, types, bounds, es, map[]) == TotalsFrom(s, types, bounds, es[i..], totals)
    {
      var entry := es[i];
      assert es[i..][1..] == es[i + 1..] && es[i..][0] == entry;
      if entry.ty !in bounds || entry.ty !in s.ownedTypes || s.ownedTypes[entry.ty].kind != entry.kind {
        return Err(Conformance);
      }
      if entry.kind == FungibleClass && !s.ownedTypes[entry.ty].is64 {
        return Err(Conformance);
      }
      var state := SumAssignments(types, entry.ty, entry.kind, entry.assigns);
      if state.Err? {
        return Err(state.error);
      }
      TallyMeans(types, entry.ty, entry.kind, entry.assigns, Owned(|entry.assigns|, 0, []));
      counts := counts[entry.ty := |entry.assigns|];
      totals := totals[entry.ty := state.value];
    }
    var within := EnforceOccurrences(bounds, counts);
    return if within then Ok(totals) else Err(Conformance);
  }

  // ----- inputs

  method ResolveInputs(s: Schema, bounds: map<nat, Occurrence>, resolve: InputRef -> Option<State>, inputs: seq<InputRef>)
    returns (r: Result<Inputs, Refusal>)
    ensures r == InputsOf(s, bounds, resolve, inputs)
  {
    hide Within, WellBounded, Append;
    var wellBounded := OccurrenceMap(bounds);
    if !wellBounded {
      return Err(Conformance);
    }
    var amounts: map<nat, u64>, counts: map<nat, nat>, data: Values := map[], map[], map[];
    for i := 0 to |inputs|
      invariant InputsFrom(s, bounds, resolve, inputs, Inputs(map[], map[], map[])) ==
                InputsFrom(s, bounds, resolve, inputs[i..], Inputs(counts, amounts, data))
    {
      var input := inputs[i];
      assert inputs[i..][1..] == inputs[i + 1..] && inputs[i..][0] == input;
      if input.ty !in bounds || input.ty !in s.ownedTypes {
        return Err(Conformance);
      }
      var state := resolve(input);
      if state.None? {
        return Err(Unresolved);
      }
      if ClassOf(state.value) != s.ownedTypes[input.ty].kind {
        return Err(StateType);
      }
      if state.value.Fungible? {
        if U64 - 1 - At(amounts, input.ty) < state.value.amount {
          return Err(StateType);
        }
        amounts := amounts[input.ty := At(amounts, input.ty) + state.value.amount];
      } else if state.value.Structured? {
        data := Append(data, input.ty, [state.value.data]);
      }
      counts := counts[input.ty := At(counts, input.ty) + 1];
    }
    var within := EnforceOccurrences(bounds, counts);
    return if within then Ok(Inputs(counts, amounts, data)) else Err(Conformance);
  }

  // ----- operations

  method ValidateTransition(s: Schema, types: Types, t: Transition, context: Context, resolve: InputRef -> Option<State>)
    returns (r: Result<Checked, Refusal>)
    ensures r == Validated(s, types, t, context, resolve)
  {
    hide TransitionId, MetadataError, MetadataAmounts, GlobalsOf, TotalsOf, InputsOf, ScriptError;
    if ByID(s).None? {
      return Err(Unknown);
    }
    var commitment := CommitTransition(t);
    if commitment.Err? {
      return Err(Commitment);
    }
    if t.contractId != context.contract || t.ty !in s.transitions {
      return Err(Conformance);
    }
    var op := s.transitions[t.ty];
    var refused := ValidateMetadata(s, types, op.metadata, t.metadata);
    if refused.Some? {
      return Err(refused.value);
    }
    var metadata := DecodeMetadata(s, types, t.metadata);
    if metadata.Err? {
      return Err(metadata.error);
    }
    var globals := ValidateGlobals(s, types, op.globals, t.globals);
    if globals.Err? {
      return Err(globals.error);
    }
    var outputs := ValidateAssignments(s, types, op.assignments, t.assignments);
    if outputs.Err? {
      return Err(outputs.error);
    }
    var inputs := ResolveInputs(s, op.inputs, resolve, t.inputs);
    if inputs.Err? {
      return Err(inputs.error);
    }
    var checked := Checked(metadata.value, globals.value, outputs.value, inputs.value);
    var e := ScriptError(ByID(s).value, types, t, commitment.value, context, checked);
    return if e.Some? then Err(e.value) else Ok(checked);
  }

  method ValidateGenesis(s: Schema, types: Types, g: Genesis) returns (e: Option<Refusal>)
    ensures e == GenesisError(s, types, g)
  {
    hide MetadataError, GlobalsOf, TotalsOf, GenesisScriptError;
    if ByID(s).None? {
      return Some(Unknown);
    }
    e := ValidateMetadata(s, types, s.genesis.metadata, g.metadata);
    if e.Some? {
      return e;
    }
    var globals := ValidateGlobals(s, types, s.genesis.globals, g.globals);
    if globals.Err? {
      return Some(globals.error);
    }
    var owned := ValidateAssignments(s, types, s.genesis.assignments, g.assignments);
    if owned.Err? {
      return Some(owned.error);
    }
    return GenesisScriptError(ByID(s).value, types, globals.value, owned.value);
  }

  // ----- outputs

  method CollectRevealed(es: seq<Entry>) returns (outputs: seq<Output>)
    ensures outputs == RevealedOutputs(es)
  {
    outputs := [];
    for i := 0 to |es|
      invariant RevealedOutputs(es) == outputs + RevealedOutputs(es[i..])
    {
      assert es[i..][1..] == es[i + 1..] && es[i..][0] == es[i];
      outputs := CollectOfType(es[i].ty, es[i].assigns, outputs, RevealedOutputs(es[i + 1..]));
    }
    assert es[|es|..] == [];
  }

  method CollectOfType(ty: nat, assigns: seq<Assignment>, before: seq<Output>, ghost after: seq<Output>) returns (outputs: seq<Output>)
    ensures outputs == before + RevealedFrom(ty, assigns, 0)
    ensures outputs + after == before + (RevealedFrom(ty, assigns, 0) + after)
  {
    outputs := before;
    for index := 0 to |assigns|
      invariant before + RevealedFrom(ty, assigns, 0) == outputs + RevealedFrom(ty, assigns[index..], index)
    {
      var item := assigns[index];
      assert assigns[index..][1..] == assigns[index + 1..] && assigns[index..][0] == item;
      if item.Revealed? {
        outputs := outputs + [Output(ty, index, item.state, item.seal)];
      }
    }
  }
}
