/** Genesis, transitions and bundles, and the identifiers that commit to them. */
module Operations {
  import opened Bytes
  import opened Merkle
  import opened Symbols
  import opened Wrappers

  /** One output of one operation, named by the operation's id. */
  datatype InputRef = InputRef(op: Digest, ty: nat, no: nat)

  /** Raw bytes that may quote digests. */
  type Data = seq<Sym>

  datatype Class = DeclarativeClass | FungibleClass | StructuredClass

  datatype State = Declarative | Fungible(amount: u64) | Structured(data: Data)

  datatype TxPtr = WitnessTx | TxId(txid: Digest)

  /** Genesis outputs are sealed to a transaction, transition outputs to a
      transaction or to the witness that will close the bundle. */
  datatype Seal = BlindSeal(txid: Digest, vout: nat, blinding: nat) | GraphSeal(ptr: TxPtr, vout: nat, blinding: nat)

  datatype Assignment = Revealed(seal: Seal, state: State) | Confidential(secret: Digest, state: State)

  /** The assignments of one type, in order. */
  datatype Entry = Entry(ty: nat, kind: Class, assigns: seq<Assignment>)

  datatype Global = Global(ty: nat, values: seq<Data>)

  datatype Meta = Meta(ty: nat, value: Data)

  datatype Genesis = Genesis(ffv: nat, schemaId: Digest, timestamp: nat, issuer: Data, chain: byte, strategy: byte,
                             metadata: seq<Meta>, globals: seq<Global>, assignments: seq<Entry>)

  datatype Transition = Transition(ffv: nat, nonce: nat, contractId: Digest, ty: nat,
                                   metadata: seq<Meta>, globals: seq<Global>, inputs: seq<InputRef>,
                                   assignments: seq<Entry>, signature: Option<seq<byte>>)

  datatype Commit = Commit(input: InputRef, op: Digest)

  datatype Known = Known(declared: Digest, transition: Transition)

  datatype Bundle = Bundle(inputMap: seq<Commit>, known: seq<Known>)

  datatype Error = InvalidTransition | InvalidBundle | TransitionIdMismatch | UnrelatedTransition

  datatype BundleCommitment = BundleCommitment(id: Digest, inputOps: set<Digest>, transitions: seq<Transition>)

  // ----- what canonical decoding guarantees

  function ClassOf(s: State): Class {
    match s
    case Declarative => DeclarativeClass
    case Fungible(_) => FungibleClass
    case Structured(_) => StructuredClass
  }

  ghost predicate CanonicalState(s: State) {
    s.Structured? ==> ByteLength(s.data) < U16
  }

  ghost predicate CanonicalSeal(s: Seal) {
    s.vout < U32 && s.blinding < U64
  }

  ghost predicate CanonicalAssignment(kind: Class, a: Assignment) {
    ClassOf(a.state) == kind && CanonicalState(a.state) && (a.Revealed? ==> CanonicalSeal(a.seal))
  }

  ghost predicate CanonicalEntry(e: Entry) {
    e.ty < U16 && 0 < |e.assigns| < U16 && forall i :: 0 <= i < |e.assigns| ==> CanonicalAssignment(e.kind, e.assigns[i])
  }

  /** Map keys are strictly increasing, lists are not empty, integers fit. */
  ghost predicate CanonicalEntries(es: seq<Entry>) {
    && |es| < U16
    && (forall i :: 0 <= i < |es| ==> CanonicalEntry(es[i]))
    && (forall i, j :: 0 <= i < j < |es| ==> es[i].ty < es[j].ty)
  }

  ghost predicate CanonicalRef(r: InputRef) {
    r.ty < U16 && r.no < U16
  }

  ghost predicate Distinct<T>(s: seq<T>) {
    forall i, j :: 0 <= i < j < |s| ==> s[i] != s[j]
  }

  ghost predicate CanonicalMetadata(ms: seq<Meta>) {
    |ms| < 0x100 && forall i :: 0 <= i < |ms| ==> ms[i].ty < U16 && ByteLength(ms[i].value) < U16
  }

  ghost predicate CanonicalGlobal(g: Global) {
    g.ty < U16 && 0 < |g.values| < U16 && forall j :: 0 <= j < |g.values| ==> ByteLength(g.values[j]) < U16
  }

  ghost predicate CanonicalGlobals(gs: seq<Global>) {
    && |gs| < 0x100
    && (forall i :: 0 <= i < |gs| ==> CanonicalGlobal(gs[i]))
    && (forall i, j :: 0 <= i < j < |gs| ==> gs[i].ty < gs[j].ty)
  }

  /** A transition as the strict decoder delivers it; in particular, its inputs
      were a canonical set. */
  ghost predicate CanonicalTransition(t: Transition) {
    && t.ffv < U16 && t.nonce < U64 && t.ty < U16
    && CanonicalMetadata(t.metadata) && CanonicalGlobals(t.globals)
    && CanonicalEntries(t.assignments)
    && |t.inputs| < U16 && Distinct(t.inputs)
    && (forall i :: 0 <= i < |t.inputs| ==> CanonicalRef(t.inputs[i]))
  }

  ghost predicate CanonicalGenesis(g: Genesis) {
    && g.ffv < U16 && g.timestamp < U64 && ByteLength(g.issuer) < U16
    && CanonicalMetadata(g.metadata) && CanonicalGlobals(g.globals)
    && CanonicalEntries(g.assignments)
  }

  ghost predicate CanonicalInputMap(m: seq<Commit>) {
    && |m| < U16
    && (forall i :: 0 <= i < |m| ==> CanonicalRef(m[i].input))
    && (forall i, j :: 0 <= i < j < |m| ==> m[i].input != m[j].input)
  }

  ghost predicate CanonicalBundle(b: Bundle) {
    CanonicalInputMap(b.inputMap) && forall i :: 0 <= i < |b.known| ==> CanonicalTransition(b.known[i].transition)
  }

  // ----- records and identifiers

  function PtrRecord(p: TxPtr): seq<Sym> {
    match p
    case WitnessTx => [B(0)]
    case TxId(txid) => [B(1), D(txid)]
  }

  function SealRecord(s: Seal): seq<Sym> {
    match s
    case BlindSeal(txid, vout, blinding) => [D(txid)] + (LE(vout, 4) + LE(blinding, 8))
    case GraphSeal(ptr, vout, blinding) => PtrRecord(ptr) + (LE(vout, 4) + LE(blinding, 8))
  }

  function Conceal(s: Seal): Digest {
    Hash(SecretSeal, SealRecord(s))
  }

  function Secret(a: Assignment): Digest {
    match a
    case Revealed(seal, _) => Conceal(seal)
    case Confidential(secret, _) => secret
  }

  /** Bytes after their length. */
  function DataRecord(data: Data): seq<Sym> {
    LE(ByteLength(data), 2) + data
  }

  function StateRecord(s: State): seq<Sym> {
    match s
    case Declarative => []
    case Fungible(amount) => [B(8)] + LE(amount, 8)
    case Structured(data) => DataRecord(data)
  }

  function AssignmentRecord(ty: nat, a: Assignment): seq<Sym> {
    LE(ty, 2) + StateRecord(a.state) + [D(Secret(a))]
  }

  function EntryRecords(ty: nat, assigns: seq<Assignment>): (r: seq<seq<Sym>>)
    ensures |r| == |assigns|
    ensures forall i :: 0 <= i < |r| ==> r[i] == AssignmentRecord(ty, assigns[i])
  {
    if assigns == [] then [] else [AssignmentRecord(ty, assigns[0])] + EntryRecords(ty, assigns[1..])
  }

  /** All assignments of an operation, type after type. */
  function Records(es: seq<Entry>): seq<seq<Sym>> {
    if es == [] then [] else EntryRecords(es[0].ty, es[0].assigns) + Records(es[1..])
  }

  function GlobalRecord(ty: nat, value: Data): seq<Sym> {
    LE(ty, 2) + DataRecord(value)
  }

  function ValueRecords(ty: nat, values: seq<Data>): (r: seq<seq<Sym>>)
    ensures |r| == |values|
    ensures forall i :: 0 <= i < |r| ==> r[i] == GlobalRecord(ty, values[i])
  {
    if values == [] then [] else [GlobalRecord(ty, values[0])] + ValueRecords(ty, values[1..])
  }

  function GlobalRecords(gs: seq<Global>): seq<seq<Sym>> {
    if gs == [] then [] else ValueRecords(gs[0].ty, gs[0].values) + GlobalRecords(gs[1..])
  }

  function MetaRecord(ms: seq<Meta>): seq<Sym> {
    if ms == [] then []
    else LE(ms[0].ty, 2) + DataRecord(ms[0].value) + MetaRecord(ms[1..])
  }

  function RefRecord(r: InputRef): (s: seq<Sym>)
    ensures |s| == 5
  {
    [D(r.op)] + LE(r.ty, 2) + LE(r.no, 2)
  }

  function RefRecords(inputs: seq<InputRef>): (r: seq<seq<Sym>>)
    ensures |r| == |inputs|
    ensures forall i :: 0 <= i < |r| ==> r[i] == RefRecord(inputs[i])
  {
    if inputs == [] then [] else [RefRecord(inputs[0])] + RefRecords(inputs[1..])
  }

  function InputMapRecord(m: seq<Commit>): seq<Sym> {
    if m == [] then [] else RefRecord(m[0].input) + [D(m[0].op)] + InputMapRecord(m[1..])
  }

  function BundleId(m: seq<Commit>): Digest {
    Hash(Tag.Bundle, LE(|m|, 2) + InputMapRecord(m))
  }

  function Roots(metadata: seq<Meta>, globals: seq<Global>, inputs: seq<InputRef>, assignments: seq<Entry>): (r: seq<Sym>)
    ensures |r| == 4
  {
    [D(Hash(StrictValue, LE(|metadata|, 1) + MetaRecord(metadata))),
     D(MerkleRoot(Leaves(GlobalRecords(globals)))),
     D(MerkleRoot(Leaves(RefRecords(inputs)))),
     D(MerkleRoot(Leaves(Records(assignments))))]
  }

  function TransitionRecord(t: Transition): seq<Sym> {
    LE(t.ffv, 2) + (LE(t.nonce, 8) + ([B(1), D(t.contractId)] + (LE(t.ty, 2) +
      Roots(t.metadata, t.globals, t.inputs, t.assignments))))
  }

  function TransitionId(t: Transition): Digest {
    Hash(Operation, TransitionRecord(t))
  }

  function GenesisRecord(g: Genesis): seq<Sym> {
    LE(g.ffv, 2) + (LE(U64 - 1, 8) + ([B(0), D(g.schemaId)] + (LE(g.timestamp, 8) +
      ([D(Hash(StrictValue, DataRecord(g.issuer))), B(g.chain), B(g.strategy)] +
       Roots(g.metadata, g.globals, [], g.assignments)))))
  }

  function GenesisId(g: Genesis): Digest {
    Hash(Operation, GenesisRecord(g))
  }

  /** The committed id; an operation without inputs has none. */
  function CommitTransition(t: Transition): Result<Digest, Error> {
    if t.inputs == [] then Err(InvalidTransition) else Ok(TransitionId(t))
  }

  // ----- bundles

  function InputOps(m: seq<Commit>): set<Digest> {
    set i | 0 <= i < |m| :: m[i].op
  }

  /** The first thing wrong with the disclosed transitions, if anything. */
  function KnownError(known: seq<Known>, ops: set<Digest>): Option<Error> {
    if known == [] then None
    else if known[0].transition.inputs == [] then Some(InvalidTransition)
    else if known[0].declared != TransitionId(known[0].transition) then Some(TransitionIdMismatch)
    else if known[0].declared !in ops then Some(UnrelatedTransition)
    else KnownError(known[1..], ops)
  }

  function Transitions(known: seq<Known>): (r: seq<Transition>)
    ensures |r| == |known|
    ensures forall i :: 0 <= i < |r| ==> r[i] == known[i].transition
  {
    if known == [] then [] else [known[0].transition] + Transitions(known[1..])
  }

  function BundleOf(b: Bundle): Result<BundleCommitment, Error> {
    if b.inputMap == [] || b.known == [] then Err(InvalidBundle)
    else
      match KnownError(b.known, InputOps(b.inputMap))
      case Some(e) => Err(e)
      case None => Ok(BundleCommitment(BundleId(b.inputMap), InputOps(b.inputMap), Transitions(b.known)))
  }

  method CommitBundle(b: Bundle) returns (r: Result<BundleCommitment, Error>)
    ensures r == BundleOf(b)
  {
    if b.inputMap == [] || b.known == [] {
      return Err(InvalidBundle);
    }
    var inputOps := CollectOperations(b.inputMap);
    var transitions := CollectTransitions(b.known, inputOps);
    if transitions.Err? {
      return Err(transitions.error);
    }
    return Ok(BundleCommitment(BundleId(b.inputMap), inputOps, transitions.value));
  }

  method CollectOperations(m: seq<Commit>) returns (ops: set<Digest>)
    ensures ops == InputOps(m)
  {
    ops := {};
    for i := 0 to |m|
      invariant ops == InputOps(m[..i])
    {
      assert m[..i + 1] == m[..i] + [m[i]];
      InputOpsSnoc(m[..i], m[i]);
      ops := ops + {m[i].op};
    }
    assert m[..|m|] == m;
  }

  method CollectTransitions(known: seq<Known>, ops: set<Digest>) returns (r: Result<seq<Transition>, Error>)
    ensures r == if KnownError(known, ops).Some? then Err(KnownError(known, ops).value) else Ok(Transitions(known))
  {
    hide TransitionId;
    var transitions: seq<Transition> := [];
    for i := 0 to |known|
      invariant transitions == Transitions(known)[..i]
      invariant KnownError(known, ops) == KnownError(known[i..], ops)
    {
      var item := known[i];
      KnownStep(known, i, ops);
      var commitment := CommitTransition(item.transition);
      if commitment.Err? {
        return Err(commitment.error);
      }
      if item.declared != commitment.value {
        return Err(TransitionIdMismatch);
      }
      if commitment.value !in ops {
        return Err(UnrelatedTransition);
      }
      transitions := transitions + [item.transition];
    }
    assert known[|known|..] == [] && Transitions(known)[..|known|] == Transitions(known);
    return Ok(transitions);
  }

  lemma {:induction false} KnownStep(known: seq<Known>, i: nat, ops: set<Digest>)
    requires i < |known|
    ensures Transitions(known)[..i + 1] == Transitions(known)[..i] + [known[i].transition]
    ensures KnownError(known[i..], ops) ==
            if CommitTransition(known[i].transition).Err? then Some(CommitTransition(known[i].transition).error)
            else if known[i].declared != CommitTransition(known[i].transition).value then Some(TransitionIdMismatch)
            else if CommitTransition(known[i].transition).value !in ops then Some(UnrelatedTransition)
            else KnownError(known[i + 1..], ops)
  {
    assert known[i..][1..] == known[i + 1..];
  }

  lemma {:induction false} InputOpsSnoc(m: seq<Commit>, c: Commit)
    ensures InputOps(m + [c]) == InputOps(m) + {c.op}
  {
    var all := m + [c];
    assert all[|m|] == c;
    forall x | x in InputOps(m) + {c.op} ensures x in InputOps(all) {
      if x in InputOps(m) {
        var i :| 0 <= i < |m| && m[i].op == x;
        assert all[i].op == x;
      } else {
        assert all[|m|].op == x;
      }
    }
    forall x | x in InputOps(all) ensures x in InputOps(m) + {c.op} {
      var i :| 0 <= i < |all| && all[i].op == x;
      assert i == |m| || m[i].op == x;
    }
  }

  /** Every disclosed transition of an accepted bundle has inputs, and its id is
      among the committed operations. */
  lemma {:induction false} KnownAccepted(known: seq<Known>, ops: set<Digest>, i: nat)
    requires KnownError(known, ops) == None && i < |known|
    ensures known[i].transition.inputs != [] && TransitionId(known[i].transition) in ops
    ensures known[i].declared == TransitionId(known[i].transition)
  {
    hide TransitionId;
    if i > 0 {
      KnownAccepted(known[1..], ops, i - 1);
    }
  }

  /** The entry that commits an input to an operation, found by scanning. */
  predicate InputMapCommits(m: seq<Commit>, input: InputRef, op: Digest) {
    Commit(input, op) in m
  }
}
