/** Validation of one operation against its schema, the totals it moves, and the
    rules of the five standard schemas. */
module Schemas {
  import opened Bytes
  import opened Catalog
  import opened Operations
  import opened Symbols
  import opened Wrappers

  datatype Refusal = Conformance | StateType | Script | Unresolved | Unsupported | Unknown | Commitment

  datatype Decoded = Malformed | NoNumber | Amount(value: u64)

  /** What the contract's type system says of raw state, the signature check, and the
      bytes that raw state stands for. */
  datatype Types = Types(meta: (nat, Data) -> Decoded,
                         global: (nat, Data) -> Decoded,
                         owned: (nat, Data) -> bool,
                         signed: (Data, Option<seq<byte>>, Digest) -> bool,
                         spelled: Data -> seq<byte>)

  type Values = map<nat, seq<Data>>

  /** The totals of one assignment type. */
  datatype Owned = Owned(count: nat, sum: u64, raw: seq<Data>)

  datatype Inputs = Inputs(counts: map<nat, nat>, amounts: map<nat, u64>, data: Values)

  datatype Checked = Checked(metadata: map<nat, u64>, globals: Values, outputs: map<nat, Owned>, inputs: Inputs)

  datatype Context = Context(contract: Digest, globals: Values)

  // ----- maps with a default

  function At(m: map<nat, nat>, k: nat): nat {
    if k in m then m[k] else 0
  }

  function Lookup(m: Values, k: nat): seq<Data> {
    if k in m then m[k] else []
  }

  function OwnedAt(m: map<nat, Owned>, k: nat): Owned {
    if k in m then m[k] else Owned(0, 0, [])
  }

  function Append(m: Values, k: nat, values: seq<Data>): Values {
    if values == [] then m else m[k := Lookup(m, k) + values]
  }

  function AppendGlobals(m: Values, gs: seq<Global>): Values
    decreases gs
  {
    if gs == [] then m else AppendGlobals(Append(m, gs[0].ty, gs[0].values), gs[1..])
  }

  // ----- occurrences

  predicate WellBounded(bounds: map<nat, Occurrence>) {
    forall id :: id in bounds ==> bounds[id].min <= bounds[id].max
  }

  predicate Within(bounds: map<nat, Occurrence>, counts: map<nat, nat>) {
    forall id :: id in bounds ==> bounds[id].min <= At(counts, id) <= bounds[id].max
  }

  function Counts(m: map<nat, Owned>): map<nat, nat> {
    map k | k in m :: m[k].count
  }

  // ----- metadata

  function MetadataError(s: Schema, types: Types, allowed: set<nat>, ms: seq<Meta>): Option<Refusal> {
    if ms == [] then None
    else if ms[0].ty !in allowed || ms[0].ty !in s.metaTypes then Some(Conformance)
    else if types.meta(ms[0].ty, ms[0].value).Malformed? then Some(StateType)
    else MetadataError(s, types, allowed, ms[1..])
  }

  function MetadataAmounts(s: Schema, types: Types, ms: seq<Meta>, acc: map<nat, u64>): Result<map<nat, u64>, Refusal> {
    if ms == [] then Ok(acc)
    else if ms[0].ty !in s.metaTypes || !types.meta(ms[0].ty, ms[0].value).Amount? then Err(StateType)
    else MetadataAmounts(s, types, ms[1..], acc[ms[0].ty := types.meta(ms[0].ty, ms[0].value).value])
  }

  // ----- globals

  predicate WellFormedValues(types: Types, ty: nat, values: seq<Data>) {
    forall i :: 0 <= i < |values| ==> !types.global(ty, values[i]).Malformed?
  }

  datatype Globals = Globals(values: Values, counts: map<nat, nat>)

  function GlobalsFrom(s: Schema, types: Types, bounds: map<nat, Occurrence>, gs: seq<Global>, acc: Globals): Result<Globals, Refusal> {
    if gs == [] then Ok(acc)
    else if gs[0].ty !in bounds || gs[0].ty !in s.globalTypes then Err(Conformance)
    else if !WellFormedValues(types, gs[0].ty, gs[0].values) then Err(StateType)
    else GlobalsFrom(s, types, bounds, gs[1..],
                     Globals(Append(acc.values, gs[0].ty, gs[0].values), acc.counts[gs[0].ty := |gs[0].values|]))
  }

  function GlobalsOf(s: Schema, types: Types, bounds: map<nat, Occurrence>, gs: seq<Global>): Result<Values, Refusal> {
    if !WellBounded(bounds) then Err(Conformance)
    else
      var g :- GlobalsFrom(s, types, bounds, gs, Globals(map[], map[]));
      if Within(bounds, g.counts) then Ok(g.values) else Err(Conformance)
  }

  // ----- assignments

  /** Adds the states of one type up; the sum must fit 64 bits. */
  function Tally(types: Types, ty: nat, kind: Class, assigns: seq<Assignment>, acc: Owned): Result<Owned, Refusal> {
    if assigns == [] then Ok(acc)
    else
      match assigns[0].state
      case Declarative =>
        if kind != DeclarativeClass then Err(StateType) else Tally(types, ty, kind, assigns[1..], acc)
      case Fungible(amount) =>
        if kind != FungibleClass || U64 - 1 - acc.sum < amount then Err(StateType)
        else Tally(types, ty, kind, assigns[1..], acc.(sum := acc.sum + amount))
      case Structured(data) =>
        if kind != StructuredClass || !types.owned(ty, data) then Err(StateType)
        else Tally(types, ty, kind, assigns[1..], acc.(raw := acc.raw + [data]))
  }

  function EntryTotals(s: Schema, types: Types, bounds: map<nat, Occurrence>, e: Entry): Result<Owned, Refusal> {
    if e.ty !in bounds || e.ty !in s.ownedTypes then Err(Conformance)
    else if s.ownedTypes[e.ty].kind != e.kind then Err(Conformance)
    else if e.kind == FungibleClass && !s.ownedTypes[e.ty].is64 then Err(Conformance)
    else Tally(types, e.ty, e.kind, e.assigns, Owned(|e.assigns|, 0, []))
  }

  function TotalsFrom(s: Schema, types: Types, bounds: map<nat, Occurrence>, es: seq<Entry>, acc: map<nat, Owned>): Result<map<nat, Owned>, Refusal> {
    if es == [] then Ok(acc)
    else
      var totals :- EntryTotals(s, types, bounds, es[0]);
      TotalsFrom(s, types, bounds, es[1..], acc[es[0].ty := totals])
  }

  function TotalsOf(s: Schema, types: Types, bounds: map<nat, Occurrence>, es: seq<Entry>): Result<map<nat, Owned>, Refusal> {
    if !WellBounded(bounds) then Err(Conformance)
    else
      var totals :- TotalsFrom(s, types, bounds, es, map[]);
      if Within(bounds, Counts(totals)) then Ok(totals) else Err(Conformance)
  }

  // ----- inputs

  function AddInput(s: Schema, bounds: map<nat, Occurrence>, resolve: InputRef -> Option<State>, input: InputRef, acc: Inputs): Result<Inputs, Refusal> {
    if input.ty !in bounds || input.ty !in s.ownedTypes then Err(Conformance)
    else
      match resolve(input)
      case None => Err(Unresolved)
      case Some(state) =>
        if ClassOf(state) != s.ownedTypes[input.ty].kind then Err(StateType)
        else
          var counted := acc.(counts := acc.counts[input.ty := At(acc.counts, input.ty) + 1]);
          match state
          case Declarative => Ok(counted)
          case Fungible(amount) =>
            if U64 - 1 - At(acc.amounts, input.ty) < amount then Err(StateType)
            else Ok(counted.(amounts := acc.amounts[input.ty := At(acc.amounts, input.ty) + amount]))
          case Structured(data) => Ok(counted.(data := Append(acc.data, input.ty, [data])))
  }

  function InputsFrom(s: Schema, bounds: map<nat, Occurrence>, resolve: InputRef -> Option<State>, inputs: seq<InputRef>, acc: Inputs): Result<Inputs, Refusal> {
    if inputs == [] then Ok(acc)
    else
      var next :- AddInput(s, bounds, resolve, inputs[0], acc);
      InputsFrom(s, bounds, resolve, inputs[1..], next)
  }

  function InputsOf(s: Schema, bounds: map<nat, Occurrence>, resolve: InputRef -> Option<State>, inputs: seq<InputRef>): Result<Inputs, Refusal> {
    if !WellBounded(bounds) then Err(Conformance)
    else
      var totals :- InputsFrom(s, bounds, resolve, inputs, Inputs(map[], map[], map[]));
      if Within(bounds, totals.counts) then Ok(totals) else Err(Conformance)
  }

  // ----- the rules of the standard schemas

  /** The only value of a global type, as an amount. */
  function OneAmount(types: Types, globals: Values, ty: nat): Option<u64> {
    var values := Lookup(globals, ty);
    if |values| == 1 && types.global(ty, values[0]).Amount? then Some(types.global(ty, values[0]).value) else None
  }

  /** An allocation of the one token: its index, then a fraction of one. */
  predicate WholeToken(types: Types, index: Data, allocation: Data) {
    Allocates(types.spelled(index), types.spelled(allocation))
  }

  predicate Allocates(index: seq<byte>, allocation: seq<byte>) {
    |index| >= 4 && |allocation| >= 12 && index[..4] == allocation[..4] && FromLittleEndian(allocation[4..12]) == 1
  }

  predicate Permitted(types: Types, context: Context, t: Transition, op: Digest) {
    |Lookup(context.globals, PERMISSION_KEY)| == 1 && types.signed(Lookup(context.globals, PERMISSION_KEY)[0], t.signature, op)
  }

  predicate MovesAll(c: Checked, ty: nat) {
    At(c.inputs.amounts, ty) == OwnedAt(c.outputs, ty).sum
  }

  /** Inflation: the allowance consumed is what was issued and what remains. */
  predicate Inflates(types: Types, c: Checked) {
    && OneAmount(types, c.globals, ISSUED_SUPPLY).Some?
    && 1000 in c.metadata
    && var issued, remaining := OneAmount(types, c.globals, ISSUED_SUPPLY).value, c.metadata[1000];
       && issued == OwnedAt(c.outputs, ASSET).sum
       && remaining == OwnedAt(c.outputs, INFLATION).sum
       && At(c.inputs.amounts, INFLATION) == (issued + remaining) % U64
       && (issued + remaining) % U64 >= issued
  }

  /** Burning: inputs are what stays and what the metadata declares burnt. */
  predicate Burns(c: Checked) {
    && 1001 in c.metadata && 1002 in c.metadata
    && var asset, inflation := OwnedAt(c.outputs, ASSET).sum, OwnedAt(c.outputs, INFLATION).sum;
       var assetTotal, inflationTotal := (asset + c.metadata[1001]) % U64, (inflation + c.metadata[1002]) % U64;
       && assetTotal >= asset && inflationTotal >= inflation
       && At(c.inputs.amounts, ASSET) == assetTotal && At(c.inputs.amounts, INFLATION) == inflationTotal
       && (At(c.inputs.amounts, ASSET) > 0 ==> c.metadata[1001] != 0)
       && (At(c.inputs.amounts, INFLATION) > 0 ==> c.metadata[1002] != 0)
       && (c.metadata[1001] != 0 || c.metadata[1002] != 0)
  }

  predicate MovesToken(types: Types, c: Checked) {
    && |Lookup(c.inputs.data, ASSET)| == 1 && |OwnedAt(c.outputs, ASSET).raw| == 1
    && WholeToken(types, Lookup(c.inputs.data, ASSET)[0], OwnedAt(c.outputs, ASSET).raw[0])
  }

  function ScriptError(kind: Kind, types: Types, t: Transition, op: Digest, context: Context, c: Checked): Option<Refusal> {
    match kind
    case NIA => if t.ty == TRANSFER && MovesAll(c, ASSET) then None else Some(Script)
    case CFA => if t.ty == TRANSFER && MovesAll(c, ASSET) then None else Some(Script)
    case PFA => if t.ty == TRANSFER && MovesAll(c, ASSET) && Permitted(types, context, t, op) then None else Some(Script)
    case IFA =>
      if t.ty == TRANSFER then
        if MovesAll(c, ASSET) && MovesAll(c, INFLATION) && At(c.inputs.counts, RIGHTS) == OwnedAt(c.outputs, RIGHTS).count
        then None else Some(Script)
      else if t.ty == INFLATE then if Inflates(types, c) then None else Some(Script)
      else if t.ty == BURN then if Burns(c) then None else Some(Script)
      else Some(Unsupported)
    case UDA => if t.ty == TRANSFER && MovesToken(types, c) then None else Some(Script)
  }

  function GenesisScriptError(kind: Kind, types: Types, globals: Values, owned: map<nat, Owned>): Option<Refusal> {
    match kind
    case IFA =>
      (match (OneAmount(types, globals, ISSUED_SUPPLY), OneAmount(types, globals, MAX_SUPPLY))
       case (Some(issued), Some(maximum)) =>
         if OwnedAt(owned, ASSET).sum == issued && issued <= maximum && OwnedAt(owned, INFLATION).sum == maximum - issued
         then None else Some(Script)
       case _ => Some(Script))
    case UDA =>
      var tokens, allocations := Lookup(globals, TOKENS), OwnedAt(owned, ASSET).raw;
      if |tokens| == 1 && |allocations| == 1 && WholeToken(types, tokens[0], allocations[0]) then None else Some(Script)
    case _ =>
      if OneAmount(types, globals, ISSUED_SUPPLY) == Some(OwnedAt(owned, ASSET).sum) then None else Some(Script)
  }

  // ----- operations

  function Conforming(s: Schema, types: Types, t: Transition, resolve: InputRef -> Option<State>): Result<Checked, Refusal>
    requires t.ty in s.transitions
  {
    var op := s.transitions[t.ty];
    if MetadataError(s, types, op.metadata, t.metadata).Some? then Err(MetadataError(s, types, op.metadata, t.metadata).value)
    else
      var metadata :- MetadataAmounts(s, types, t.metadata, map[]);
      var globals :- GlobalsOf(s, types, op.globals, t.globals);
      var outputs :- TotalsOf(s, types, op.assignments, t.assignments);
      var inputs :- InputsOf(s, op.inputs, resolve, t.inputs);
      Ok(Checked(metadata, globals, outputs, inputs))
  }

  /** One transition against its schema, with its inputs resolved from validated history. */
  function Validated(s: Schema, types: Types, t: Transition, context: Context, resolve: InputRef -> Option<State>): Result<Checked, Refusal> {
    if ByID(s).None? then Err(Unknown)
    else if CommitTransition(t).Err? then Err(Commitment)
    else if t.contractId != context.contract || t.ty !in s.transitions then Err(Conformance)
    else
      var c :- Conforming(s, types, t, resolve);
      var e := ScriptError(ByID(s).value, types, t, CommitTransition(t).value, context, c);
      if e.Some? then Err(e.value) else Ok(c)
  }

  function GenesisError(s: Schema, types: Types, g: Genesis): Option<Refusal> {
    if ByID(s).None? then Some(Unknown)
    else if MetadataError(s, types, s.genesis.metadata, g.metadata).Some? then MetadataError(s, types, s.genesis.metadata, g.metadata)
    else
      match GlobalsOf(s, types, s.genesis.globals, g.globals)
      case Err(e) => Some(e)
      case Ok(globals) =>
        match TotalsOf(s, types, s.genesis.assignments, g.assignments)
        case Err(e) => Some(e)
        case Ok(owned) => GenesisScriptError(ByID(s).value, types, globals, owned)
  }

  // ----- outputs

  datatype Output = Output(ty: nat, no: nat, state: State, seal: Seal)

  /** The disclosed outputs of one type; concealed ones keep their index. */
  function RevealedFrom(ty: nat, assigns: seq<Assignment>, no: nat): seq<Output> {
    if assigns == [] then []
    else
      match assigns[0]
      case Revealed(seal, state) => [Output(ty, no, state, seal)] + RevealedFrom(ty, assigns[1..], no + 1)
      case Confidential(_, _) => RevealedFrom(ty, assigns[1..], no + 1)
  }

  /** The outputs later transitions may spend. */
  function RevealedOutputs(es: seq<Entry>): seq<Output> {
    if es == [] then [] else RevealedFrom(es[0].ty, es[0].assigns, 0) + RevealedOutputs(es[1..])
  }
}
