/** The supply results, for every container that validation accepts and every
    prefix of its history. */
module Accepted {
  import opened Agreement
  import opened Balance
  import opened Bytes
  import opened Catalog
  import opened Conservation
  import opened Inflation
  import opened Operations
  import opened Outputs
  import opened Safety
  import opened Schemas
  import opened SchemaTotals
  import opened Symbols
  import opened Unique
  import opened Validator
  import opened Wrappers

  lemma {:induction false} RunBegins(env: Env, mode: Mode, c: Consignment)
    requires RunAll(env, mode, c).Ok?
    ensures Start(c.genesis).Ok? && GenesisError(env.schema, env.types, c.genesis) == None
    ensures RunBundles(env, mode, GenesisId(c.genesis), c.bundles, Run(Start(c.genesis).value, map[], true)) == RunAll(env, mode, c)
  {
    hide GenesisId, RunBundles, Start, GenesisError;
  }

  /** Each prefix of the transitions of an accepted container leads to a ledger. */
  lemma {:induction false} PrefixReaches(env: Env, mode: Mode, c: Consignment, k: nat) returns (l: Ledger)
    requires CanonicalConsignment(c) && RunAll(env, mode, c).Ok?
    requires k <= |AllSteps(env, mode, GenesisId(c.genesis), c.bundles)|
    ensures Reaches(env, mode, c.genesis, AllSteps(env, mode, GenesisId(c.genesis), c.bundles)[..k], l)
    ensures k == |AllSteps(env, mode, GenesisId(c.genesis), c.bundles)| ==> l == RunAll(env, mode, c).value.ledger
  {
    hide GenesisId, RunAll, RunBundles, Start, GenesisError, Replay, AllSteps, CanonicalGenesis, CanonicalWitnessBundle, CanonicalTransition;
    RunBegins(env, mode, c);
    var contract := GenesisId(c.genesis);
    var steps := AllSteps(env, mode, contract, c.bundles);
    var start := Start(c.genesis).value;
    RunReplays(env, mode, contract, c.bundles, Run(start, map[], true));
    StepsCanonical(env, mode, contract, c.bundles);
    PrefixAccepted(env, mode, contract, start, steps, k);
    l := Replay(env, mode, contract, start, steps[..k]).value;
    if k == |steps| {
      assert steps[..k] == steps;
    }
  }

  /** What an accepted container owes to its schema at one of its ledgers. */
  ghost predicate SupplyHolds(env: Env, g: Genesis, l: Ledger) {
    match ByID(env.schema)
    case None => false
    case Some(IFA) =>
      && DeclaredAmount(env.types, g.globals, MAX_SUPPLY).Some?
      && Issued(env, g, l) + Amounts(g, l, INFLATION) + SumLog(l.log, BurnsInflation(env)) ==
         DeclaredAmount(env.types, g.globals, MAX_SUPPLY).value
      && Amounts(g, l, ASSET) + SumLog(l.log, BurnsAsset(env)) == Issued(env, g, l)
    case Some(UDA) => Chained(env.types, g, l)
    case Some(_) => DeclaredAmount(env.types, g.globals, ISSUED_SUPPLY) == Some(Amounts(g, l, ASSET))
  }

  lemma {:induction false} ReachedSupply(env: Env, mode: Mode, g: Genesis, steps: seq<Step>, l: Ledger)
    requires Reaches(env, mode, g, steps, l)
    ensures SupplyHolds(env, g, l)
  {
    hide Amounts, Chained, Issued, SumLog, Reaches, DeclaredAmount;
    KnownKind(env, mode, g, steps, l);
    match ByID(env.schema).value {
      case IFA => SupplyIsBounded(env, mode, g, steps, l);
      case UDA => TokenIsUnique(env, mode, g, steps, l);
      case NIA => SupplyIsConserved(env, mode, g, steps, l);
      case CFA => SupplyIsConserved(env, mode, g, steps, l);
      case PFA => SupplyIsConserved(env, mode, g, steps, l);
    }
  }

  lemma {:induction false} KnownKind(env: Env, mode: Mode, g: Genesis, steps: seq<Step>, l: Ledger)
    requires Reaches(env, mode, g, steps, l)
    ensures ByID(env.schema).Some?
  {
    hide GenesisId, Start, Replay, CanonicalGenesis;
  }

  /** Whatever container is accepted, in whatever mode: after every prefix of its
      history the supply rule of its schema holds. */
  lemma {:induction false} AcceptedSupply(env: Env, mode: Mode, c: Consignment, k: nat) returns (l: Ledger)
    requires CanonicalConsignment(c) && RunAll(env, mode, c).Ok?
    requires k <= |AllSteps(env, mode, GenesisId(c.genesis), c.bundles)|
    ensures Replay(env, mode, GenesisId(c.genesis), Start(c.genesis).value, AllSteps(env, mode, GenesisId(c.genesis), c.bundles)[..k]) == Ok(l)
    ensures SupplyHolds(env, c.genesis, l)
    ensures k == |AllSteps(env, mode, GenesisId(c.genesis), c.bundles)| ==> l == RunAll(env, mode, c).value.ledger
  {
    hide SupplyHolds, RunAll, Start, GenesisId, Replay, AllSteps;
    l := PrefixReaches(env, mode, c, k);
    ReachedSupply(env, mode, c.genesis, AllSteps(env, mode, GenesisId(c.genesis), c.bundles)[..k], l);
  }
}
