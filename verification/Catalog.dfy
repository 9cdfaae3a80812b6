/** The standard schemas. A schema id commits to the whole schema, so the id of a
    catalogued schema belongs to a schema with exactly its parts. */
module Catalog {
  import opened Operations
  import opened Wrappers

  datatype Kind = NIA | CFA | PFA | IFA | UDA

  datatype Occurrence = Occurrence(min: nat, max: nat)

  datatype OperationSchema = OperationSchema(metadata: set<nat>, globals: map<nat, Occurrence>,
                                             inputs: map<nat, Occurrence>, assignments: map<nat, Occurrence>)

  datatype OwnedType = OwnedType(kind: Class, is64: bool)

  /** Names, semantic ids, default types and script sites: those of a catalogued
      schema, or others. */
  datatype Details = Standard(kind: Kind) | Others(data: Data)

  datatype Schema = Schema(details: Details, genesis: OperationSchema, transitions: map<nat, OperationSchema>,
                           metaTypes: set<nat>, globalTypes: set<nat>, ownedTypes: map<nat, OwnedType>)

  const ASSET: nat := 4000
  const INFLATION: nat := 4010
  const RIGHTS: nat := 4013
  const ISSUED_SUPPLY: nat := 2010
  const MAX_SUPPLY: nat := 2011
  const TOKENS: nat := 2102
  const PERMISSION_KEY: nat := 3006
  const TRANSFER: nat := 10000
  const INFLATE: nat := 8000
  const BURN: nat := 8010
  const LINK: nat := 8012

  const ONCE: Occurrence := Occurrence(1, 1)
  const OPTIONAL: Occurrence := Occurrence(0, 1)
  const MORE: Occurrence := Occurrence(1, 0xffff)
  const ANY: Occurrence := Occurrence(0, 0xffff)

  const AMOUNT: OwnedType := OwnedType(FungibleClass, true)

  /** Transfers of the plain fungible schemas. */
  const MOVES: OperationSchema := OperationSchema({}, map[], map[ASSET := MORE], map[ASSET := MORE])

  const NIA_SCHEMA: Schema := Schema(
    Standard(NIA),
    OperationSchema({}, map[2000 := ONCE, 2001 := ONCE, ISSUED_SUPPLY := ONCE], map[], map[ASSET := MORE]),
    map[TRANSFER := MOVES],
    {}, {2000, 2001, ISSUED_SUPPLY}, map[ASSET := AMOUNT])

  const CFA_SCHEMA: Schema := Schema(
    Standard(CFA),
    OperationSchema({}, map[2001 := ONCE, ISSUED_SUPPLY := ONCE, 3000 := OPTIONAL, 3001 := ONCE, 3004 := OPTIONAL, 3005 := ONCE],
                    map[], map[ASSET := MORE]),
    map[TRANSFER := MOVES],
    {}, {2001, ISSUED_SUPPLY, 3000, 3001, 3004, 3005}, map[ASSET := AMOUNT])

  const INFLATES: OperationSchema :=
    OperationSchema({1000}, map[ISSUED_SUPPLY := ONCE], map[INFLATION := MORE], map[ASSET := MORE, INFLATION := ANY])

  const BURNS: OperationSchema :=
    OperationSchema({1001, 1002}, map[], map[ASSET := ANY, INFLATION := ANY, RIGHTS := OPTIONAL], map[ASSET := ANY, INFLATION := ANY])

  const LINKS: OperationSchema := OperationSchema({}, map[2014 := ONCE], map[RIGHTS := ONCE], map[])

  const MOVES_ALL: OperationSchema :=
    OperationSchema({}, map[], map[ASSET := ANY, INFLATION := ANY, RIGHTS := OPTIONAL],
                    map[ASSET := ANY, INFLATION := ANY, RIGHTS := OPTIONAL])

  const IFA_SCHEMA: Schema := Schema(
    Standard(IFA),
    OperationSchema({}, map[2000 := ONCE, 2001 := ONCE, ISSUED_SUPPLY := ONCE, MAX_SUPPLY := ONCE, 2012 := OPTIONAL, 2013 := OPTIONAL],
                    map[], map[ASSET := ANY, INFLATION := ANY, RIGHTS := OPTIONAL]),
    map[INFLATE := INFLATES, BURN := BURNS, LINK := LINKS, TRANSFER := MOVES_ALL],
    {1000, 1001, 1002}, {2000, 2001, ISSUED_SUPPLY, MAX_SUPPLY, 2012, 2013, 2014},
    map[ASSET := AMOUNT, INFLATION := AMOUNT, RIGHTS := OwnedType(DeclarativeClass, false)])

  const UDA_SCHEMA: Schema := Schema(
    Standard(UDA),
    OperationSchema({}, map[2000 := ONCE, 2001 := ONCE, TOKENS := ONCE, 2104 := OPTIONAL], map[], map[ASSET := ONCE]),
    map[TRANSFER := OperationSchema({}, map[], map[ASSET := ONCE], map[ASSET := ONCE])],
    {}, {2000, 2001, TOKENS, 2104}, map[ASSET := OwnedType(StructuredClass, false)])

  /** The kind of a catalogued schema; of PFA only the id is catalogued here, not its parts. */
  function ByID(s: Schema): Option<Kind> {
    match s.details
    case Others(_) => None
    case Standard(kind) => if IsStandard(s, kind) then Some(kind) else None
  }

  predicate IsStandard(s: Schema, kind: Kind) {
    match kind
    case NIA => s == NIA_SCHEMA
    case CFA => s == CFA_SCHEMA
    case IFA => s == IFA_SCHEMA
    case UDA => s == UDA_SCHEMA
    case PFA => true
  }

  lemma {:induction false} KindIs(s: Schema)
    ensures ByID(s) == Some(NIA) <==> s == NIA_SCHEMA
    ensures ByID(s) == Some(CFA) <==> s == CFA_SCHEMA
    ensures ByID(s) == Some(IFA) <==> s == IFA_SCHEMA
    ensures ByID(s) == Some(UDA) <==> s == UDA_SCHEMA
    ensures ByID(s) == Some(PFA) <==> s.details == Standard(PFA)
  {
  }
}
