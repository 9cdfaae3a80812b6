/** A container of the shipped schema of inflatable assets that validation accepts:
    what the results about accepted histories assume can be met. */
module AcceptedExample {
  import opened Agreement
  import opened Anchor
  import opened Balance
  import opened Bytes
  import opened Catalog
  import opened Operations
  import opened Outputs
  import opened SchemaAccepts
  import opened Schemas
  import opened SchemaTotals
  import opened Symbols
  import opened Validator
  import opened Wrappers
  import Merkle
  import Mpc
  import Safety

  const FUNDING: Digest := Raw(Repeat(1, 32))
  const WITNESS: Digest := Raw(Repeat(2, 32))

  /** One byte is a number, everything else is malformed. */
  function Small(ty: nat, data: Data): Decoded {
    if |data| == 1 && data[0].B? then Amount(data[0].b) else Malformed
  }

  const TYPES: Types := Types(Small, Small, (ty, data) => false, (key, signature, op) => false, data => [])

  /** A global with one value of one byte. */
  function One(ty: nat, b: byte): Global {
    Global(ty, [[B(b)]])
  }

  /** Five assets are issued, of at most eight. */
  const GENESIS: Genesis := Genesis(
    0, ZERO, 0, [], 0, 0, [],
    [One(2000, 0), One(2001, 0), One(ISSUED_SUPPLY, 5), One(MAX_SUPPLY, 8)],
    [Entry(ASSET, FungibleClass, [Revealed(BlindSeal(FUNDING, 0, 0), Fungible(5))]),
     Entry(INFLATION, FungibleClass, [Revealed(BlindSeal(FUNDING, 1, 0), Fungible(3))])])

  function Taken(contract: Digest): seq<InputRef> {
    [InputRef(contract, INFLATION, 0)]
  }

  /** Two more are issued and one right is left. */
  function Inflating(contract: Digest): Transition {
    Transition(0, 0, contract, INFLATE, [Meta(1000, [B(1)])], [Global(ISSUED_SUPPLY, [[B(2)]])], Taken(contract),
               [Entry(ASSET, FungibleClass, [Confidential(ZERO, Fungible(2))]),
                Entry(INFLATION, FungibleClass, [Confidential(ZERO, Fungible(1))])], None)
  }

  // ----- the rules of the schema

  lemma {:induction false} OfTwo(a: Entry, b: Entry, ty: nat)
    requires a.ty != b.ty
    ensures Of([a, b], ty) == if ty == a.ty then a.assigns else if ty == b.ty then b.assigns else []
  {
    assert [a, b][1..] == [b] && [b][1..] == [];
    assert Of([b], ty) == if ty == b.ty then b.assigns else Of([], ty);
  }

  /** Bounds that allow one assignment each of assets and of rights. */
  predicate Allows(bounds: map<nat, Occurrence>) {
    && ASSET in bounds && INFLATION in bounds
    && forall id :: id in bounds ==> bounds[id].max >= 1 && bounds[id].min <= (if id == ASSET || id == INFLATION then 1 else 0)
  }

  lemma {:induction false} OneFits(bounds: map<nat, Occurrence>, ty: nat, a: Assignment)
    requires Allows(bounds) && (ty == ASSET || ty == INFLATION) && a.state.Fungible?
    ensures EntryFits(IFA_SCHEMA, TYPES, bounds, Entry(ty, FungibleClass, [a])) && Sum([a]) == a.state.amount
  {
    assert Sum([a]) == AmountIn(a.state) + Sum([]);
  }

  lemma {:induction false} TwoFit(bounds: map<nat, Occurrence>, a: Assignment, b: Assignment)
    requires Allows(bounds) && a.state.Fungible? && b.state.Fungible?
    ensures var es := [Entry(ASSET, FungibleClass, [a]), Entry(INFLATION, FungibleClass, [b])];
            && OutputsFit(IFA_SCHEMA, TYPES, bounds, es) && TotalsOf(IFA_SCHEMA, TYPES, bounds, es).Ok?
            && OwnedAt(TotalsOf(IFA_SCHEMA, TYPES, bounds, es).value, ASSET).sum == a.state.amount
            && OwnedAt(TotalsOf(IFA_SCHEMA, TYPES, bounds, es).value, INFLATION).sum == b.state.amount
  {
    hide EntryFits, TotalsOf;
    var x, y := Entry(ASSET, FungibleClass, [a]), Entry(INFLATION, FungibleClass, [b]);
    OneFits(bounds, ASSET, a);
    OneFits(bounds, INFLATION, b);
    forall id | id in bounds ensures bounds[id].min <= |Of([x, y], id)| <= bounds[id].max { OfTwo(x, y, id); }
    OfTwo(x, y, ASSET);
    OfTwo(x, y, INFLATION);
    OutputsExactly(IFA_SCHEMA, TYPES, bounds, [x, y]);
    OutputsMean(IFA_SCHEMA, TYPES, bounds, [x, y], ASSET);
    OutputsMean(IFA_SCHEMA, TYPES, bounds, [x, y], INFLATION);
  }

  lemma {:induction false} ValuesCons(g: Global, gs: seq<Global>, ty: nat)
    ensures ValuesFor([g] + gs, ty) == if g.ty == ty then g.values else ValuesFor(gs, ty)
  {
    assert ([g] + gs)[1..] == gs;
  }

  /** The values genesis declares. */
  lemma {:induction false} GenesisValues(ty: nat)
    ensures ValuesFor(GENESIS.globals, ty) ==
            if ty == 2000 || ty == 2001 then [[B(0)]] else if ty == ISSUED_SUPPLY then [[B(5)]] else if ty == MAX_SUPPLY then [[B(8)]] else []
  {
    var gs := GENESIS.globals;
    ValuesCons(gs[0], gs[1..], ty);
    ValuesCons(gs[1], gs[2..], ty);
    ValuesCons(gs[2], gs[3..], ty);
    ValuesCons(gs[3], [], ty);
    assert gs == [gs[0]] + gs[1..] && gs[1..] == [gs[1]] + gs[2..] && gs[2..] == [gs[2]] + gs[3..] && gs[3..] == [gs[3]] + [];
  }

  lemma {:induction false} GenesisBounds(id: nat)
    requires id in IFA_SCHEMA.genesis.globals
    ensures IFA_SCHEMA.genesis.globals[id].max == 1
    ensures IFA_SCHEMA.genesis.globals[id].min == if id == 2000 || id == 2001 || id == ISSUED_SUPPLY || id == MAX_SUPPLY then 1 else 0
  {
  }

  lemma {:induction false} OneGlobalFits(ty: nat, b: byte)
    requires ty == 2000 || ty == 2001 || ty == ISSUED_SUPPLY || ty == MAX_SUPPLY
    ensures GlobalFits(IFA_SCHEMA, TYPES, IFA_SCHEMA.genesis.globals, One(ty, b))
  {
  }

  lemma {:induction false} EachGlobalFits(i: nat)
    requires i < |GENESIS.globals|
    ensures GlobalFits(IFA_SCHEMA, TYPES, IFA_SCHEMA.genesis.globals, GENESIS.globals[i])
  {
    hide One, GlobalFits;
    if i == 0 { OneGlobalFits(2000, 0); }
    if i == 1 { OneGlobalFits(2001, 0); }
    if i == 2 { OneGlobalFits(ISSUED_SUPPLY, 5); }
    if i == 3 { OneGlobalFits(MAX_SUPPLY, 8); }
  }

  lemma {:induction false} BoundsAreOrdered()
    ensures WellBounded(IFA_SCHEMA.genesis.globals)
  {
  }

  lemma {:induction false} GenesisCounts(id: nat)
    requires id in IFA_SCHEMA.genesis.globals
    ensures IFA_SCHEMA.genesis.globals[id].min <= |ValuesFor(GENESIS.globals, id)| <= IFA_SCHEMA.genesis.globals[id].max
  {
    hide ValuesFor;
    GenesisBounds(id);
    GenesisValues(id);
  }

  lemma {:induction false} GenesisGlobals()
    ensures GlobalsFit(IFA_SCHEMA, TYPES, IFA_SCHEMA.genesis.globals, GENESIS.globals)
    ensures DeclaredAmount(TYPES, GENESIS.globals, ISSUED_SUPPLY) == Some(5)
    ensures DeclaredAmount(TYPES, GENESIS.globals, MAX_SUPPLY) == Some(8)
  {
    hide ValuesFor, WellBounded, GlobalFits;
    var gs, bounds := GENESIS.globals, IFA_SCHEMA.genesis.globals;
    BoundsAreOrdered();
    forall i | 0 <= i < |gs| ensures GlobalFits(IFA_SCHEMA, TYPES, bounds, gs[i]) { EachGlobalFits(i); }
    forall id | id in bounds ensures bounds[id].min <= |ValuesFor(gs, id)| <= bounds[id].max { GenesisCounts(id); }
    GenesisValues(ISSUED_SUPPLY);
    GenesisValues(MAX_SUPPLY);
  }

  lemma {:induction false} SchemaIs()
    ensures ByID(IFA_SCHEMA) == Some(IFA) && INFLATE in IFA_SCHEMA.transitions && IFA_SCHEMA.transitions[INFLATE] == INFLATES
  {
  }

  lemma {:induction false} GenesisOutputs()
    ensures var s, es := IFA_SCHEMA, GENESIS.assignments;
            && OutputsFit(s, TYPES, s.genesis.assignments, es) && TotalsOf(s, TYPES, s.genesis.assignments, es).Ok?
            && OwnedAt(TotalsOf(s, TYPES, s.genesis.assignments, es).value, ASSET).sum == 5
            && OwnedAt(TotalsOf(s, TYPES, s.genesis.assignments, es).value, INFLATION).sum == 3
  {
    hide OutputsFit, TotalsOf, OwnedAt;
    var es := GENESIS.assignments;
    TwoFit(IFA_SCHEMA.genesis.assignments, es[0].assigns[0], es[1].assigns[0]);
  }

  lemma {:induction false} GenesisRule(globals: Values, owned: map<nat, Owned>)
    requires OneAmount(TYPES, globals, ISSUED_SUPPLY) == Some(5) && OneAmount(TYPES, globals, MAX_SUPPLY) == Some(8)
    requires OwnedAt(owned, ASSET).sum == 5 && OwnedAt(owned, INFLATION).sum == 3
    ensures GenesisScriptError(IFA, TYPES, globals, owned) == None
  {
    hide OneAmount, OwnedAt;
  }

  lemma {:induction false} GenesisAccepted()
    ensures GenesisError(IFA_SCHEMA, TYPES, GENESIS) == None
  {
    hide OutputsFit, GlobalsFit, TotalsOf, GlobalsOf, DeclaredAmount, OneAmount, OwnedAt, GenesisScriptError, ByID, GenesisError, CanonicalGlobal, CanonicalEntry;
    var s, gs, es := IFA_SCHEMA, GENESIS.globals, GENESIS.assignments;
    SchemaIs();
    GenesisCanonical();
    GenesisGlobals();
    GenesisOutputs();
    GenesisExactly(s, TYPES, GENESIS);
    DeclaredMeans(s, TYPES, s.genesis.globals, gs, ISSUED_SUPPLY);
    DeclaredMeans(s, TYPES, s.genesis.globals, gs, MAX_SUPPLY);
    GenesisRule(GlobalsOf(s, TYPES, s.genesis.globals, gs).value, TotalsOf(s, TYPES, s.genesis.assignments, es).value);
  }

  // ----- the inflation against its schema

  /** The outputs of genesis. */
  function Live(contract: Digest): map<InputRef, Placed> {
    map[InputRef(contract, ASSET, 0) := Placed(Fungible(5), Outpoint(FUNDING, 0), 0, false, ZERO),
        InputRef(contract, INFLATION, 0) := Placed(Fungible(3), Outpoint(FUNDING, 1), 0, false, ZERO)]
  }

  lemma {:induction false} TakenAmounts(contract: Digest, ty: nat)
    ensures InputAmount(Resolution(Live(contract)), Taken(contract), ty) == if ty == INFLATION then 3 else 0
    ensures InputCount(Taken(contract), ty) == if ty == INFLATION then 1 else 0
  {
    var ins, resolve := Taken(contract), Resolution(Live(contract));
    assert ins[1..] == [];
    assert resolve(ins[0]) == Some(Fungible(3));
  }

  lemma {:induction false} InputsPass(contract: Digest)
    ensures var r := InputsOf(IFA_SCHEMA, INFLATES.inputs, Resolution(Live(contract)), Taken(contract));
            r.Ok? && At(r.value.amounts, INFLATION) == 3
  {
    hide InputsOf, InputsFrom;
    var ins, resolve := Taken(contract), Resolution(Live(contract));
    forall ty: nat ensures InputAmount(resolve, ins, ty) < U64 { TakenAmounts(contract, ty); }
    TakenAmounts(contract, INFLATION);
    InputsExactly(IFA_SCHEMA, INFLATES.inputs, resolve, ins);
    InputsTotal(contract);
  }

  lemma {:induction false} InputsTotal(contract: Digest)
    requires InputsOf(IFA_SCHEMA, INFLATES.inputs, Resolution(Live(contract)), Taken(contract)).Ok?
    ensures At(InputsOf(IFA_SCHEMA, INFLATES.inputs, Resolution(Live(contract)), Taken(contract)).value.amounts, INFLATION) == 3
  {
    hide InputsFrom, Taken, Live, Resolution;
    InputsMean(IFA_SCHEMA, INFLATES.inputs, Resolution(Live(contract)), Taken(contract), Inputs(map[], map[], map[]), INFLATION);
    TakenAmounts(contract, INFLATION);
  }

  lemma {:induction false} GlobalAccepted(contract: Digest)
    ensures var r := GlobalsOf(IFA_SCHEMA, TYPES, INFLATES.globals, Inflating(contract).globals);
            r.Ok? && OneAmount(TYPES, r.value, ISSUED_SUPPLY) == Some(2)
  {
    hide OneAmount, GlobalsOf;
    var gs := Inflating(contract).globals;
    assert gs[1..] == [] && ValuesFor(gs, ISSUED_SUPPLY) == [[B(2)]];
    GlobalsExactly(IFA_SCHEMA, TYPES, INFLATES.globals, gs);
    DeclaredMeans(IFA_SCHEMA, TYPES, INFLATES.globals, gs, ISSUED_SUPPLY);
  }

  lemma {:induction false} MetadataAccepted()
    ensures var ms := [Meta(1000, [B(1)])];
            MetadataError(IFA_SCHEMA, TYPES, {1000}, ms) == None && MetadataAmounts(IFA_SCHEMA, TYPES, ms, map[]) == Ok(map[1000 := 1])
  {
    var ms := [Meta(1000, [B(1)])];
    assert ms[1..] == [];
  }

  lemma {:induction false} RuleHolds(contract: Digest, c: Checked)
    requires OneAmount(TYPES, c.globals, ISSUED_SUPPLY) == Some(2) && c.metadata == map[1000 := 1]
    requires OwnedAt(c.outputs, ASSET).sum == 2 && OwnedAt(c.outputs, INFLATION).sum == 1 && At(c.inputs.amounts, INFLATION) == 3
    ensures forall op, context :: ScriptError(IFA, TYPES, Inflating(contract), op, context, c) == None
  {
    hide OneAmount, OwnedAt, At;
  }

  lemma {:induction false} InflationConforms(contract: Digest)
    ensures Conforming(IFA_SCHEMA, TYPES, Inflating(contract), Resolution(Live(contract))).Ok?
    ensures var c := Conforming(IFA_SCHEMA, TYPES, Inflating(contract), Resolution(Live(contract))).value;
            && OneAmount(TYPES, c.globals, ISSUED_SUPPLY) == Some(2) && c.metadata == map[1000 := 1]
            && OwnedAt(c.outputs, ASSET).sum == 2 && OwnedAt(c.outputs, INFLATION).sum == 1 && At(c.inputs.amounts, INFLATION) == 3
  {
    hide GlobalsOf, TotalsOf, InputsOf, MetadataError, MetadataAmounts, OneAmount, At, OwnedAt, Live, Resolution;
    var t := Inflating(contract);
    SchemaIs();
    InputsPass(contract);
    GlobalAccepted(contract);
    MetadataAccepted();
    TwoFit(INFLATES.assignments, t.assignments[0].assigns[0], t.assignments[1].assigns[0]);
  }

  lemma {:induction false} InflationAccepted(contract: Digest, globals: Values)
    ensures Validated(IFA_SCHEMA, TYPES, Inflating(contract), Context(contract, globals), Resolution(Live(contract))).Ok?
  {
    hide TransitionId, Conforming, ScriptError, ByID, OneAmount, At, OwnedAt, Live, Resolution;
    SchemaIs();
    InflationConforms(contract);
    RuleHolds(contract, Conforming(IFA_SCHEMA, TYPES, Inflating(contract), Resolution(Live(contract))).value);
  }

  // ----- the container

  lemma {:induction false} RevealedOne(ty: nat, a: Assignment)
    ensures RevealedFrom(ty, [a], 0) == if a.Revealed? then [Output(ty, 0, a.state, a.seal)] else []
  {
    assert [a][1..] == [];
    assert RevealedFrom(ty, [], 0) == RevealedFrom(ty, [], 1) == [];
  }

  lemma {:induction false} Started()
    ensures Start(GENESIS).Ok?
    ensures var l := Start(GENESIS).value;
            l.states == Live(GenesisId(GENESIS)) && l.consumed == {} && l.log == []
  {
    hide GenesisId;
    var es := GENESIS.assignments;
    var first, second := RevealedFrom(ASSET, es[0].assigns, 0), RevealedFrom(INFLATION, es[1].assigns, 0);
    RevealedOne(ASSET, es[0].assigns[0]);
    RevealedOne(INFLATION, es[1].assigns[0]);
    assert es[1..] == [es[1]] && [es[1]][1..] == [];
    assert RevealedOutputs([es[1]]) == second + RevealedOutputs([]) == second;
    assert RevealedOutputs(es) == first + second;
    var id, outputs := GenesisId(GENESIS), first + second;
    assert outputs[1..] == second && second[1..] == [];
    var one := map[InputRef(id, ASSET, 0) := Placed(Fungible(5), Outpoint(FUNDING, 0), 0, false, ZERO)];
    assert Register(Live(id), id, second[1..], ZERO) == Ok(Live(id));
    assert one[InputRef(id, INFLATION, 0) := Placed(Fungible(3), Outpoint(FUNDING, 1), 0, false, ZERO)] == Live(id);
    assert Register(one, id, second, ZERO) == Ok(Live(id));
    assert Register(map[], id, outputs, ZERO) == Register(one, id, second, ZERO);
  }

  function Mapping(contract: Digest): seq<Commit> {
    var t := Inflating(contract);
    [Commit(t.inputs[0], TransitionId(t))]
  }

  const FREE: Crypto := Crypto(d => 0, (a, b) => false, d => true, (k, r) => true)

  const PROOF: Mpc.Proof := Mpc.Proof(0, 0, [])

  function Anchoring(contract: Digest): Digest {
    Mpc.Commitment(0, 0, Merkle.LeafHash(Mpc.LeafRecord(contract, BundleId(Mapping(contract)))))
  }

  /** The transaction that spends the funding and carries the commitment. */
  function Closing(contract: Digest): Tx {
    Tx(WITNESS, [Outpoint(FUNDING, 1)], [TxOut(0, OpretScript(Anchoring(contract)))])
  }

  function Inflated(contract: Digest): WitnessBundle {
    var t := Inflating(contract);
    WitnessBundle(Named(WITNESS), PROOF, Opret, Bundle.Bundle(Mapping(contract), [Known(TransitionId(t), t)]))
  }

  const CONTRACT: Digest := GenesisId(GENESIS)

  const CONTAINER: Consignment := Consignment(GENESIS, true, [], [Inflated(CONTRACT)])

  /** A chain that knows this one transaction. */
  const CHAIN: Resolver :=
    Resolver(id => if id == WITNESS then Some(Evidence(Parsed(Closing(CONTRACT)), Mined)) else None, o => None)

  const ENV: Env := Env(FREE, Some(CHAIN), IFA_SCHEMA, TYPES)

  const PLAIN: Mode := Mode(false, false, false)

  lemma {:induction false} CommitsAlone(contract: Digest)
    ensures BundleOf(Inflated(contract).bundle) ==
            Ok(BundleCommitment(BundleId(Mapping(contract)), InputOps(Mapping(contract)), [Inflating(contract)]))
  {
    hide TransitionId, BundleId;
    var b := Inflated(contract).bundle;
    assert b.inputMap[0].op == TransitionId(Inflating(contract));
    assert b.known[1..] == [] && KnownError([], InputOps(b.inputMap)) == None;
    assert TransitionId(Inflating(contract)) in InputOps(b.inputMap);
    assert KnownError(b.known, InputOps(b.inputMap)) == None;
    assert Transitions(b.known) == [Inflating(contract)] + Transitions([]) == [Inflating(contract)];
  }

  lemma {:induction false} Anchors(contract: Digest)
    ensures Mpc.Convolution(FREE, PROOF, contract, BundleId(Mapping(contract))) == Ok(Anchoring(contract))
    ensures VerifyDBC(FREE, Closing(contract), Opret, Anchoring(contract)).Ok?
  {
    hide BundleId, TransitionId;
  }

  lemma {:induction false} OpensTheBundle() returns (o: Opened)
    ensures Open(ENV, false, CONTRACT, Inflated(CONTRACT)) == Ok(o)
    ensures o.inputMap == Mapping(CONTRACT) && o.transitions == [Inflating(CONTRACT)]
    ensures o.closer == Witness(Closing(CONTRACT), WITNESS, Mined)
  {
    hide BundleId, TransitionId, GenesisId, BundleOf, VerifyDBC, Mpc.Convolution, Mapping, Anchoring;
    CommitsAlone(CONTRACT);
    Anchors(CONTRACT);
    o := Open(ENV, false, CONTRACT, Inflated(CONTRACT)).value;
  }

  lemma {:induction false} NothingRevealed(contract: Digest)
    ensures RevealedOutputs(Inflating(contract).assignments) == []
  {
    var es := Inflating(contract).assignments;
    RevealedOne(ASSET, es[0].assigns[0]);
    RevealedOne(INFLATION, es[1].assigns[0]);
    assert es[1..] == [es[1]] && [es[1]][1..] == [];
    assert RevealedOutputs([es[1]]) == [] + RevealedOutputs([]);
  }

  lemma {:induction false} AppliesTheInflation(l: Ledger, o: Opened)
    requires l.states == Live(CONTRACT) && l.consumed == {} && l.log == []
    requires o.inputMap == Mapping(CONTRACT) && o.closer == Witness(Closing(CONTRACT), WITNESS, Mined)
    ensures var r := Apply(ENV, PLAIN, CONTRACT, l, o, Inflating(CONTRACT));
            r.Ok? && r.value.log == [Safety.Entered(l, o, Inflating(CONTRACT))]
  {
    hide TransitionId, GenesisId, Validated, Anchoring;
    var t := Inflating(CONTRACT);
    InflationAccepted(CONTRACT, l.globals);
    assert t.inputs[1..] == [];
    assert Mapping(CONTRACT)[0] == Commit(t.inputs[0], TransitionId(t));
    assert Closing(CONTRACT).spends[0] == Outpoint(FUNDING, 1);
    assert InputError(ENV, PLAIN, l, o, TransitionId(t), t.inputs[0]) == None;
    assert InputsError(ENV, PLAIN, l, o, TransitionId(t), []) == None;
    assert InputsError(ENV, PLAIN, l, o, TransitionId(t), t.inputs) == None;
    NothingRevealed(CONTRACT);
  }

  lemma {:induction false} GenesisCanonical()
    ensures CanonicalGenesis(GENESIS)
  {
    hide CanonicalGlobals, CanonicalEntries;
    GenesisGlobalsCanonical();
    GenesisEntriesCanonical();
  }

  lemma {:induction false} GenesisEntriesCanonical()
    ensures CanonicalEntries(GENESIS.assignments)
  {
    assert CanonicalEntry(GENESIS.assignments[0]) && CanonicalEntry(GENESIS.assignments[1]);
  }

  lemma {:induction false} GlobalOfByte(ty: nat, b: byte)
    requires ty < U16
    ensures CanonicalGlobal(One(ty, b)) && One(ty, b).ty == ty
  {
    SmallData(b);
  }

  lemma {:induction false} GenesisGlobalsCanonical()
    ensures CanonicalGlobals(GENESIS.globals)
  {
    GlobalOfByte(2000, 0);
    GlobalOfByte(2001, 0);
    GlobalOfByte(ISSUED_SUPPLY, 5);
    GlobalOfByte(MAX_SUPPLY, 8);
    hide CanonicalGlobal, CanonicalGlobals, One;
    FourCanonical(One(2000, 0), One(2001, 0), One(ISSUED_SUPPLY, 5), One(MAX_SUPPLY, 8));
  }

  lemma {:induction false} FourCanonical(a: Global, b: Global, c: Global, d: Global)
    requires CanonicalGlobal(a) && CanonicalGlobal(b) && CanonicalGlobal(c) && CanonicalGlobal(d)
    requires a.ty < b.ty < c.ty < d.ty
    ensures CanonicalGlobals([a, b, c, d])
  {
    hide CanonicalGlobal;
    var gs := [a, b, c, d];
    forall i, j | 0 <= i < j < |gs| ensures gs[i].ty < gs[j].ty {
      assert i == 0 || i == 1 || i == 2;
    }
  }

  lemma {:induction false} InflatingCanonical(contract: Digest)
    ensures CanonicalTransition(Inflating(contract))
  {
    SmallData(1);
    SmallData(2);
    var es := Inflating(contract).assignments;
    assert CanonicalEntries(es) by {
      assert CanonicalEntry(es[0]) && CanonicalEntry(es[1]);
    }
  }

  lemma {:induction false} ContainerCanonical()
    ensures CanonicalConsignment(CONTAINER)
  {
    hide TransitionId, GenesisId, Anchoring, BundleId, CanonicalGenesis, CanonicalTransition;
    GenesisCanonical();
    InflatingCanonical(CONTRACT);
  }

  lemma {:induction false} SmallData(b: byte)
    ensures ByteLength([B(b)]) == 1
  {
    assert [B(b)][1..] == [];
  }

  /** The container is accepted. */
  lemma {:induction false} ContainerAccepted()
    ensures CanonicalConsignment(CONTAINER) && RunAll(ENV, PLAIN, CONTAINER).Ok?
    ensures ByID(ENV.schema) == Some(IFA) && |RunAll(ENV, PLAIN, CONTAINER).value.ledger.log| == 1
  {
    hide GenesisId, TransitionId, Start, GenesisError, Open, Apply, Anchoring, Mapping, CanonicalConsignment;
    ContainerCanonical();
    GenesisAccepted();
    Started();
    var l := Start(GENESIS).value;
    var o := OpensTheBundle();
    AppliesTheInflation(l, o);
    var t := Inflating(CONTRACT);
    var m := Apply(ENV, PLAIN, CONTRACT, l, o, t).value;
    assert StepsOf(o, [t]) == [Step(o, t)];
    assert Replay(ENV, PLAIN, CONTRACT, m, []) == Ok(m);
    assert [Step(o, t)][1..] == [] && CONTAINER.bundles[1..] == [];
    assert Replay(ENV, PLAIN, CONTRACT, l, StepsOf(o, o.transitions)) == Ok(m);
    var r := Close(Run(l, map[], true), m, o);
    assert RunBundles(ENV, PLAIN, CONTRACT, [], r) == Ok(r);
    assert RunAll(ENV, PLAIN, CONTAINER) == Ok(r);
  }
}
