/** What the scripts of the standard schemas demand, in terms of the operation itself:
    sums over its assignments and inputs, values it declares, and spelled bytes. */
module SchemaRules {
  import opened Bytes
  import opened Catalog
  import opened Commitments
  import opened Operations
  import opened SchemaAccepts
  import opened Schemas
  import opened SchemaTotals
  import opened Symbols
  import opened Wrappers

  // ----- values

  /** The one value given decodes to the amount `n`. */
  ghost predicate Declares(types: Types, ty: nat, values: seq<Data>, n: u64) {
    |values| == 1 && types.global(ty, values[0]) == Amount(n)
  }

  lemma {:induction false} OneAmountExactly(types: Types, globals: Values, ty: nat, n: u64)
    ensures OneAmount(types, globals, ty) == Some(n) <==> Declares(types, ty, if ty in globals then globals[ty] else [], n)
  {
  }

  /** The last metadata of the type decodes to the amount `n`. */
  ghost predicate Annotates(types: Types, ms: seq<Meta>, ty: nat, n: u64) {
    exists i :: LastOf(ms, ty, i) && types.meta(ty, ms[i].value) == Amount(n)
  }

  ghost predicate LastOf(ms: seq<Meta>, ty: nat, i: int) {
    0 <= i < |ms| && ms[i].ty == ty && forall j :: i < j < |ms| ==> ms[j].ty != ty
  }

  ghost predicate NoMeta(ms: seq<Meta>, ty: nat) {
    forall i :: 0 <= i < |ms| ==> ms[i].ty != ty
  }

  lemma {:induction false} AnnotatesTail(types: Types, ms: seq<Meta>, ty: nat, n: u64)
    requires ms != []
    ensures Annotates(types, ms, ty, n) <==>
            Annotates(types, ms[1..], ty, n) || (NoMeta(ms[1..], ty) && ms[0].ty == ty && types.meta(ty, ms[0].value) == Amount(n))
    ensures NoMeta(ms, ty) <==> ms[0].ty != ty && NoMeta(ms[1..], ty)
  {
    var rest := ms[1..];
    forall i | LastOf(rest, ty, i) ensures LastOf(ms, ty, i + 1) && ms[i + 1] == rest[i] {
      assert forall j :: i + 1 < j < |ms| ==> ms[j] == rest[j - 1];
    }
    forall i | LastOf(ms, ty, i) && i > 0 ensures LastOf(rest, ty, i - 1) && ms[i] == rest[i - 1] {
      assert forall j :: i - 1 < j < |rest| ==> rest[j] == ms[j + 1];
    }
    assert forall j :: 0 < j < |ms| ==> ms[j] == rest[j - 1];
    assert forall j :: 0 <= j < |rest| ==> rest[j] == ms[j + 1];
    if NoMeta(rest, ty) && ms[0].ty == ty {
      assert LastOf(ms, ty, 0);
    }
  }

  /** The amounts read from metadata are, type by type, those of its last entry. */
  lemma {:induction false} MetadataMeans(s: Schema, types: Types, ms: seq<Meta>, acc: map<nat, u64>, ty: nat, n: u64)
    requires MetadataAmounts(s, types, ms, acc).Ok?
    ensures var m := MetadataAmounts(s, types, ms, acc).value;
            ty in m && m[ty] == n <==> Annotates(types, ms, ty, n) || (NoMeta(ms, ty) && ty in acc && acc[ty] == n)
  {
    if ms != [] {
      hide Annotates;
      var next := acc[ms[0].ty := types.meta(ms[0].ty, ms[0].value).value];
      MetadataMeans(s, types, ms[1..], next, ty, n);
      AnnotatesTail(types, ms, ty, n);
      if Annotates(types, ms[1..], ty, n) {
        AnnotatedOnce(types, ms[1..], ty, n);
      }
    }
  }

  lemma {:induction false} AnnotatedOnce(types: Types, ms: seq<Meta>, ty: nat, n: u64)
    requires Annotates(types, ms, ty, n)
    ensures !NoMeta(ms, ty)
  {
  }

  // ----- tokens

  /** The allocation spells the first four bytes of the token, then one as eight bytes. */
  ghost predicate SpellsWhole(token: seq<byte>, allocation: seq<byte>) {
    |token| >= 4 && |allocation| >= 12 && allocation[..4] == token[..4] && allocation[4..12] == [1, 0, 0, 0, 0, 0, 0, 0]
  }

  lemma {:induction false} OneInBytes(raw: seq<byte>)
    requires |raw| == 8
    ensures FromLittleEndian(raw) == 1 <==> raw == [1, 0, 0, 0, 0, 0, 0, 0]
  {
    ZeroInBytes(raw[1..]);
    assert raw == [raw[0]] + raw[1..];
    assert [1, 0, 0, 0, 0, 0, 0, 0][1..] == Repeat(0, 7);
  }

  lemma {:induction false} ZeroInBytes(raw: seq<byte>)
    ensures FromLittleEndian(raw) == 0 <==> raw == Repeat(0, |raw|)
  {
    if raw != [] {
      ZeroInBytes(raw[1..]);
      assert raw == [raw[0]] + raw[1..];
      assert Repeat(0, |raw|)[1..] == Repeat(0, |raw| - 1);
    }
  }

  /** An allocation is of the whole token exactly when its bytes say so. */
  lemma {:induction false} WholeExactly(types: Types, index: Data, allocation: Data)
    ensures WholeToken(types, index, allocation) <==> SpellsWhole(types.spelled(index), types.spelled(allocation))
  {
    var b := types.spelled(allocation);
    if |b| >= 12 {
      OneInBytes(b[4..12]);
    }
  }

  // ----- transitions

  /** The key among the contract's globals, the only one of its type, signed the operation. */
  ghost predicate Signed(types: Types, globals: Values, t: Transition) {
    && 3006 in globals && |globals[3006]| == 1
    && types.signed(globals[3006][0], t.signature, TransitionId(t))
  }

  /** As much of the type comes in as goes out. */
  ghost predicate Balances(t: Transition, resolve: InputRef -> Option<State>, ty: nat) {
    InputAmount(resolve, t.inputs, ty) == Sum(Of(t.assignments, ty))
  }

  /** Inflation: the allowance that comes in is, as a true sum, the issue declared and
      assigned and the allowance that is annotated and assigned. */
  ghost predicate InflationRule(types: Types, t: Transition, resolve: InputRef -> Option<State>) {
    exists issued: u64, remaining: u64 ::
      && Declares(types, 2010, ValuesFor(t.globals, 2010), issued) && Annotates(types, t.metadata, 1000, remaining)
      && issued == Sum(Of(t.assignments, 4000)) && remaining == Sum(Of(t.assignments, 4010))
      && InputAmount(resolve, t.inputs, 4010) == issued + remaining
  }

  /** Burning: what comes in is, as true sums, what goes out and what is annotated as burnt;
      of whatever comes in some is burnt, and something is. */
  ghost predicate BurnRule(types: Types, t: Transition, resolve: InputRef -> Option<State>) {
    exists assets: u64, allowance: u64 ::
      && Annotates(types, t.metadata, 1001, assets) && Annotates(types, t.metadata, 1002, allowance)
      && InputAmount(resolve, t.inputs, 4000) == Sum(Of(t.assignments, 4000)) + assets
      && InputAmount(resolve, t.inputs, 4010) == Sum(Of(t.assignments, 4010)) + allowance
      && (InputAmount(resolve, t.inputs, 4000) > 0 ==> assets > 0)
      && (InputAmount(resolve, t.inputs, 4010) > 0 ==> allowance > 0)
      && assets + allowance > 0
  }

  ghost predicate TokenRule(types: Types, t: Transition, resolve: InputRef -> Option<State>) {
    var before, after := InputData(resolve, t.inputs, 4000), DataOf(Of(t.assignments, 4000));
    |before| == 1 && |after| == 1 && SpellsWhole(types.spelled(before[0]), types.spelled(after[0]))
  }

  /** The rule of a schema for one of its transitions. */
  ghost predicate Rule(kind: Kind, types: Types, t: Transition, globals: Values, resolve: InputRef -> Option<State>) {
    match kind
    case NIA => t.ty == 10000 && Balances(t, resolve, 4000)
    case CFA => t.ty == 10000 && Balances(t, resolve, 4000)
    case PFA => t.ty == 10000 && Balances(t, resolve, 4000) && Signed(types, globals, t)
    case UDA => t.ty == 10000 && TokenRule(types, t, resolve)
    case IFA =>
      || (t.ty == 10000 && Balances(t, resolve, 4000) && Balances(t, resolve, 4010)
          && InputCount(t.inputs, 4013) == |Of(t.assignments, 4013)|)
      || (t.ty == 8000 && InflationRule(types, t, resolve))
      || (t.ty == 8010 && BurnRule(types, t, resolve))
  }

  /** The tracked totals of one type are the true ones. */
  ghost predicate Tracks(c: Checked, t: Transition, resolve: InputRef -> Option<State>, ty: nat) {
    && TotalsAre(c.outputs, t.assignments, ty)
    && At(c.inputs.amounts, ty) == InputAmount(resolve, t.inputs, ty)
    && At(c.inputs.counts, ty) == InputCount(t.inputs, ty)
    && Lookup(c.inputs.data, ty) == InputData(resolve, t.inputs, ty)
    && Lookup(c.globals, ty) == ValuesFor(t.globals, ty)
  }

  lemma {:induction false} ConformingTracks(s: Schema, types: Types, t: Transition, resolve: InputRef -> Option<State>, ty: nat)
    requires Increases(t.assignments) && GlobalsIncrease(t.globals) && t.ty in s.transitions && Conforming(s, types, t, resolve).Ok?
    ensures Tracks(Conforming(s, types, t, resolve).value, t, resolve, ty)
    ensures MetadataAmounts(s, types, t.metadata, map[]) == Ok(Conforming(s, types, t, resolve).value.metadata)
  {
    hide TotalsOf, InputsFrom, MetadataError, MetadataAmounts, GlobalsFrom, Within, WellBounded, TotalsAre;
    var op := s.transitions[t.ty];
    OutputsMean(s, types, op.assignments, t.assignments, ty);
    InputsMean(s, op.inputs, resolve, t.inputs, Inputs(map[], map[], map[]), ty);
    GlobalsMean(s, types, op.globals, t.globals, Globals(map[], map[]), ty);
  }

  lemma {:induction false} InflatesExactly(s: Schema, types: Types, t: Transition, resolve: InputRef -> Option<State>, c: Checked)
    requires MetadataAmounts(s, types, t.metadata, map[]) == Ok(c.metadata)
    requires Tracks(c, t, resolve, 4000) && Tracks(c, t, resolve, 4010) && Tracks(c, t, resolve, 2010)
    ensures Inflates(types, c) <==> InflationRule(types, t, resolve)
  {
    hide MetadataAmounts, Annotates, Sum, Of, InputAmount, InputCount, InputData, ValuesFor, DataOf;
    assert forall n: u64 :: OneAmount(types, c.globals, 2010) == Some(n) <==> Declares(types, 2010, ValuesFor(t.globals, 2010), n);
    forall n: u64 ensures 1000 in c.metadata && c.metadata[1000] == n <==> Annotates(types, t.metadata, 1000, n) {
      MetadataMeans(s, types, t.metadata, map[], 1000, n);
    }
    if Inflates(types, c) {
      var issued, remaining := OneAmount(types, c.globals, 2010).value, c.metadata[1000];
      assert Declares(types, 2010, ValuesFor(t.globals, 2010), issued) && Annotates(types, t.metadata, 1000, remaining);
    }
  }

  lemma {:induction false} BurnsExactly(s: Schema, types: Types, t: Transition, resolve: InputRef -> Option<State>, c: Checked)
    requires MetadataAmounts(s, types, t.metadata, map[]) == Ok(c.metadata)
    requires Tracks(c, t, resolve, 4000) && Tracks(c, t, resolve, 4010)
    ensures Burns(c) <==> BurnRule(types, t, resolve)
  {
    hide MetadataAmounts, Annotates, Sum, Of, InputAmount, InputCount, InputData, ValuesFor, DataOf;
    forall n: u64
      ensures 1001 in c.metadata && c.metadata[1001] == n <==> Annotates(types, t.metadata, 1001, n)
      ensures 1002 in c.metadata && c.metadata[1002] == n <==> Annotates(types, t.metadata, 1002, n)
    {
      MetadataMeans(s, types, t.metadata, map[], 1001, n);
      MetadataMeans(s, types, t.metadata, map[], 1002, n);
    }
    if Burns(c) {
      assert Annotates(types, t.metadata, 1001, c.metadata[1001]) && Annotates(types, t.metadata, 1002, c.metadata[1002]);
    }
  }

  /** The script holds of the tracked totals exactly when the rule holds of the transition;
      a kind of transition without a rule is unsupported, all else is a script error. */
  lemma {:induction false} ScriptExactly(s: Schema, kind: Kind, types: Types, t: Transition, context: Context, resolve: InputRef -> Option<State>)
    requires Increases(t.assignments) && GlobalsIncrease(t.globals) && t.ty in s.transitions && Conforming(s, types, t, resolve).Ok?
    ensures var e := ScriptError(kind, types, t, TransitionId(t), context, Conforming(s, types, t, resolve).value);
            && (e == None <==> Rule(kind, types, t, context.globals, resolve))
            && (e == Some(Unsupported) <==> kind == IFA && t.ty != 10000 && t.ty != 8000 && t.ty != 8010)
            && (e.Some? && e != Some(Unsupported) ==> e == Some(Script))
  {
    hide Conforming, TransitionId, MetadataAmounts, Inflates, Burns, InflationRule, BurnRule, Sum, Of, InputAmount, InputCount, InputData, DataOf,
         ValuesFor, WholeToken, SpellsWhole;
    var c := Conforming(s, types, t, resolve).value;
    ConformingTracks(s, types, t, resolve, 4000);
    ConformingTracks(s, types, t, resolve, 4010);
    ConformingTracks(s, types, t, resolve, 4013);
    ConformingTracks(s, types, t, resolve, 2010);
    InflatesExactly(s, types, t, resolve, c);
    BurnsExactly(s, types, t, resolve, c);
    if |InputData(resolve, t.inputs, 4000)| == 1 && |DataOf(Of(t.assignments, 4000))| == 1 {
      WholeExactly(types, InputData(resolve, t.inputs, 4000)[0], DataOf(Of(t.assignments, 4000))[0]);
    }
  }

  /** A transition is accepted exactly when it is of this contract, has inputs, conforms in all
      its parts to its type in a known schema, and obeys the rule of the schema. */
  lemma {:induction false} AcceptedByRule(s: Schema, types: Types, t: Transition, context: Context, resolve: InputRef -> Option<State>)
    requires Increases(t.assignments) && GlobalsIncrease(t.globals)
    ensures Validated(s, types, t, context, resolve).Ok? <==>
            Conforms(s, types, t, context.contract, resolve) && Rule(ByID(s).value, types, t, context.globals, resolve)
  {
    hide Validated, Conforming, ScriptError, TransitionId, Rule, MetadataFits, GlobalsFit, OutputsFit, InputsFit;
    ValidatedExactly(s, types, t, context, resolve);
    if Conforms(s, types, t, context.contract, resolve) {
      ScriptExactly(s, ByID(s).value, types, t, context, resolve);
    }
  }

  /** An honest burn is accepted: some of every kind that comes in is burnt, and the rest goes out. */
  lemma {:induction false} HonestBurn(s: Schema, types: Types, t: Transition, context: Context, resolve: InputRef -> Option<State>, assets: u64, allowance: u64)
    requires Increases(t.assignments) && GlobalsIncrease(t.globals)
    requires ByID(s) == Some(IFA) && t.ty == 8010 && Conforms(s, types, t, context.contract, resolve)
    requires Annotates(types, t.metadata, 1001, assets) && Annotates(types, t.metadata, 1002, allowance)
    requires InputAmount(resolve, t.inputs, 4000) == Sum(Of(t.assignments, 4000)) + assets && (assets == 0 ==> Sum(Of(t.assignments, 4000)) == 0)
    requires InputAmount(resolve, t.inputs, 4010) == Sum(Of(t.assignments, 4010)) + allowance && (allowance == 0 ==> Sum(Of(t.assignments, 4010)) == 0)
    requires assets > 0 || allowance > 0
    ensures Validated(s, types, t, context, resolve).Ok?
  {
    hide Validated, Conforms, Annotates, Sum, Of, InputAmount;
    AcceptedByRule(s, types, t, context, resolve);
    assert BurnRule(types, t, resolve);
  }

  // ----- genesis

  ghost predicate GenesisRule(kind: Kind, types: Types, g: Genesis) {
    match kind
    case UDA =>
      var tokens, allocations := ValuesFor(g.globals, 2102), DataOf(Of(g.assignments, 4000));
      |tokens| == 1 && |allocations| == 1 && SpellsWhole(types.spelled(tokens[0]), types.spelled(allocations[0]))
    case IFA =>
      exists issued: u64, maximum: u64 ::
        && Declares(types, 2010, ValuesFor(g.globals, 2010), issued) && Declares(types, 2011, ValuesFor(g.globals, 2011), maximum)
        && Sum(Of(g.assignments, 4000)) == issued
        && Sum(Of(g.assignments, 4010)) + issued == maximum
    case _ =>
      exists issued: u64 :: Declares(types, 2010, ValuesFor(g.globals, 2010), issued) && Sum(Of(g.assignments, 4000)) == issued
  }

  ghost predicate GenesisTracks(globals: Values, owned: map<nat, Owned>, g: Genesis, ty: nat) {
    Lookup(globals, ty) == ValuesFor(g.globals, ty) && TotalsAre(owned, g.assignments, ty)
  }

  lemma {:induction false} GenesisScriptExactly(kind: Kind, types: Types, g: Genesis, globals: Values, owned: map<nat, Owned>)
    requires GenesisTracks(globals, owned, g, 4000) && GenesisTracks(globals, owned, g, 4010)
    requires GenesisTracks(globals, owned, g, 2010) && GenesisTracks(globals, owned, g, 2011) && GenesisTracks(globals, owned, g, 2102)
    ensures GenesisScriptError(kind, types, globals, owned) == None <==> GenesisRule(kind, types, g)
    ensures GenesisScriptError(kind, types, globals, owned).Some? ==> GenesisScriptError(kind, types, globals, owned) == Some(Script)
  {
    hide Sum, Of, DataOf, ValuesFor, WholeToken, SpellsWhole;
    forall n: u64
      ensures OneAmount(types, globals, 2010) == Some(n) <==> Declares(types, 2010, ValuesFor(g.globals, 2010), n)
      ensures OneAmount(types, globals, 2011) == Some(n) <==> Declares(types, 2011, ValuesFor(g.globals, 2011), n)
    {
      OneAmountExactly(types, globals, 2010, n);
      OneAmountExactly(types, globals, 2011, n);
    }
    if |ValuesFor(g.globals, 2102)| == 1 && |DataOf(Of(g.assignments, 4000))| == 1 {
      WholeExactly(types, ValuesFor(g.globals, 2102)[0], DataOf(Of(g.assignments, 4000))[0]);
    }
    if kind.IFA? && GenesisScriptError(kind, types, globals, owned) == None {
      var issued, maximum := OneAmount(types, globals, 2010).value, OneAmount(types, globals, 2011).value;
      assert Declares(types, 2010, ValuesFor(g.globals, 2010), issued) && Declares(types, 2011, ValuesFor(g.globals, 2011), maximum);
    }
  }

  /** A genesis is accepted exactly when it conforms to a known schema in all its parts and obeys its rule. */
  lemma {:induction false} GenesisByRule(s: Schema, types: Types, g: Genesis)
    requires Increases(g.assignments) && GlobalsIncrease(g.globals)
    ensures GenesisError(s, types, g) == None <==>
            && ByID(s).Some? && MetadataDecodes(s, types, s.genesis.metadata, g.metadata)
            && GlobalsFit(s, types, s.genesis.globals, g.globals) && OutputsFit(s, types, s.genesis.assignments, g.assignments)
            && GenesisRule(ByID(s).value, types, g)
  {
    hide GenesisError, GenesisScriptError, GenesisRule, MetadataDecodes, GlobalsFit, OutputsFit;
    GenesisExactly(s, types, g);
    if ByID(s).Some? && GlobalsFit(s, types, s.genesis.globals, g.globals) && OutputsFit(s, types, s.genesis.assignments, g.assignments) {
      forall ty ensures GenesisTracks(GlobalsOf(s, types, s.genesis.globals, g.globals).value, TotalsOf(s, types, s.genesis.assignments, g.assignments).value, g, ty) {
        PartsTrack(s, types, g, ty);
      }
      GenesisScriptExactly(ByID(s).value, types, g, GlobalsOf(s, types, s.genesis.globals, g.globals).value,
                           TotalsOf(s, types, s.genesis.assignments, g.assignments).value);
    }
  }

  lemma {:induction false} PartsTrack(s: Schema, types: Types, g: Genesis, ty: nat)
    requires Increases(g.assignments) && GlobalsIncrease(g.globals)
    requires GlobalsOf(s, types, s.genesis.globals, g.globals).Ok? && TotalsOf(s, types, s.genesis.assignments, g.assignments).Ok?
    ensures GenesisTracks(GlobalsOf(s, types, s.genesis.globals, g.globals).value, TotalsOf(s, types, s.genesis.assignments, g.assignments).value, g, ty)
  {
    hide TotalsOf, GlobalsFrom, TotalsAre, Within, WellBounded;
    OutputsMean(s, types, s.genesis.assignments, g.assignments, ty);
    GlobalsMean(s, types, s.genesis.globals, g.globals, Globals(map[], map[]), ty);
  }
}
