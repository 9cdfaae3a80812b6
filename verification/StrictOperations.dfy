/** From bytes to operations: what strict decoding delivers at the types of operations
    is canonical, so the conditions on operations hold of everything that is decoded. */
module StrictOperations {
  import opened Bytes
  import opened StrictTypes
  import opened StrictCodec
  import opened StrictRoundTrip
  import opened StrictOrder
  import opened StrictInputs
  import opened StrictLayouts
  import opened Wrappers
  import Operations
  import Symbols

  // ----- the types

  const DATA: Ty := Tuple([List(BYTE, 0, 0xffff)])

  const VOUT: Ty := Tuple([Prim(4)])

  const TX_PTR: Ty := Union([Variant("witnessTx", 0), Variant("txid", 1)], [Prim(0), Tuple([OP_ID])])

  const SEAL_NAMES: seq<string> := ["txid", "vout", "blinding"]

  /** Genesis seals name a transaction; the seals of transitions may name the witness. */
  function SealFields(genesis: bool): seq<Ty> {
    [if genesis then OP_ID else TX_PTR, VOUT, Prim(8)]
  }

  const AMOUNT: Ty := Tuple([Union([Variant("bits64", 8)], [Tuple([Prim(8)])])])

  function StateTy(kind: Operations.Class): Ty {
    match kind
    case DeclarativeClass => Prim(0)
    case FungibleClass => AMOUNT
    case StructuredClass => DATA
  }

  const ASSIGN_NAMES: seq<string> := ["seal", "state"]
  const ASSIGN_VARIANTS: seq<Variant> := [Variant("revealed", 0), Variant("confidentialSeal", 1)]

  function AssignTy(genesis: bool, kind: Operations.Class): Ty {
    Union(ASSIGN_VARIANTS, [Struct(ASSIGN_NAMES, [Struct(SEAL_NAMES, SealFields(genesis)), StateTy(kind)]),
                            Struct(ASSIGN_NAMES, [OP_ID, StateTy(kind)])])
  }

  function AssignsTy(genesis: bool, kind: Operations.Class): Ty {
    Tuple([Tuple([List(AssignTy(genesis, kind), 1, 0xffff)])])
  }

  const CLASSES: seq<Variant> := [Variant("declarative", 0), Variant("fungible", 1), Variant("structured", 2)]

  function ClassAt(i: nat): Operations.Class
    requires i < 3
  {
    if i == 0 then Operations.DeclarativeClass else if i == 1 then Operations.FungibleClass else Operations.StructuredClass
  }

  function TypedTy(genesis: bool): Ty {
    Union(CLASSES, [AssignsTy(genesis, ClassAt(0)), AssignsTy(genesis, ClassAt(1)), AssignsTy(genesis, ClassAt(2))])
  }

  function AssignmentsTy(genesis: bool): Ty {
    Tuple([Map(TYPE_ID, TypedTy(genesis), 0, 0xffff)])
  }

  const VALUES: Ty := Tuple([List(DATA, 1, 0xffff)])
  const GLOBALS: Ty := Tuple([Map(TYPE_ID, VALUES, 0, 0xff)])
  const METADATA: Ty := Tuple([Map(TYPE_ID, DATA, 0, 0xff)])

  // ----- one step into a well-typed value

  lemma {:induction false} UnionStep(vs: seq<Variant>, tys: seq<Ty>, v: Value)
    requires WellTyped(Union(vs, tys), v)
    ensures v.body.UnionV? && FindTag(vs, v.body.tag).Some? && FindTag(vs, v.body.tag).value < |tys|
    ensures vs[FindTag(vs, v.body.tag).value].name == v.body.name
    ensures WellTyped(tys[FindTag(vs, v.body.tag).value], v.body.inner)
  {
  }

  lemma {:induction false} ListStep(e: Ty, min: u64, max: u64, v: Value)
    requires !Flat(e) && WellTyped(List(e, min, max), v)
    ensures v.body.ListV? && min <= |v.body.items| <= max && forall i :: 0 <= i < |v.body.items| ==> WellTyped(e, v.body.items[i])
  {
    var items := v.body.items;
    hide Copies, Flat;
    forall i | 0 <= i < |items| ensures WellTyped(e, items[i]) {
      WellTypedAt(Copies(e, |items|), items, i);
    }
  }

  lemma {:induction false} PairTyped(k: Ty, val: Ty, n: nat, items: seq<Value>, i: nat)
    requires |items| == 2 * n && WellTypedAll(Pairs(k, val, n), items) && i < n
    ensures WellTyped(k, items[2 * i]) && WellTyped(val, items[2 * i + 1])
  {
    hide Pairs, WellTypedAll, WellTyped, Stamp, StampAll, Depth, DepthAll;
    PairsAt(k, val, n, 2 * i);
    PairsAt(k, val, n, 2 * i + 1);
    WellTypedAt(Pairs(k, val, n), items, 2 * i);
    WellTypedAt(Pairs(k, val, n), items, 2 * i + 1);
  }

  ghost predicate EachTyped(k: Ty, val: Ty, items: seq<Value>) {
    |items| % 2 == 0 && forall i :: 0 <= i < |items| / 2 ==> WellTyped(k, items[2 * i]) && WellTyped(val, items[2 * i + 1])
  }

  lemma {:induction false} MapStep(k: Ty, val: Ty, min: u64, max: u64, v: Value)
    requires WellTyped(Map(k, val, min, max), v)
    ensures v.body.MapV? && |v.body.items| % 2 == 0 && min <= |v.body.items| / 2 <= max && Increasing(Keys(v.body.items))
    ensures EachTyped(k, val, v.body.items)
  {
    MapParts(k, val, min, max, v);
    hide Pairs, WellTypedAll, Increasing, Keys, WellTyped;
    var items, n := v.body.items, |v.body.items| / 2;
    forall i | 0 <= i < n ensures WellTyped(k, items[2 * i]) && WellTyped(val, items[2 * i + 1]) {
      PairTyped(k, val, n, items, i);
    }
  }

  lemma {:induction false} StructStep(names: seq<string>, ts: seq<Ty>, v: Value)
    requires WellTyped(Struct(names, ts), v)
    ensures v.body.StructV? && v.body.names == names && |v.body.items| == |ts| == |names|
    ensures forall i :: 0 <= i < |ts| ==> WellTyped(ts[i], v.body.items[i])
  {
    forall i | 0 <= i < |ts| ensures WellTyped(ts[i], v.body.items[i]) {
      hide WellTyped;
      WellTypedAt(ts, v.body.items, i);
    }
  }

  /** An unsigned number of two, four or eight bytes. */
  ghost predicate IsNumber(v: Value, n: nat) {
    v.body.Number? && v.body.unsigned == Some(n)
  }

  lemma {:induction false} NumberRead(code: byte, v: Value)
    requires (code == 2 || code == 4 || code == 8) && WellTyped(Prim(code), v)
    ensures v.body.Number? && v.body.unsigned.Some? && v.body.unsigned.value < Pow256(code)
  {
  }

  // ----- what readers see

  /** How bytes are understood: which digest 32 bytes are, and what raw data says. */
  datatype Reading = Reading(digest: seq<byte> -> Symbols.Digest, data: seq<byte> -> Operations.Data)

  /** Different ids are different digests, and no byte of data is lost. */
  ghost predicate Sensible(rd: Reading) {
    && (forall a, b :: |a| == 32 && |b| == 32 && rd.digest(a) == rd.digest(b) ==> a == b)
    && (forall b :: Symbols.ByteLength(rd.data(b)) == |b|)
  }

  /** Reading every byte as itself is such a reading. */
  lemma {:induction false} PlainReading() returns (rd: Reading)
    ensures Sensible(rd)
  {
    rd := Reading(b => Symbols.Raw(b), b => Symbols.Plain(b));
    forall b ensures Symbols.ByteLength(Symbols.Plain(b)) == |b| { Symbols.ByteLengthLeast(Symbols.Plain(b)); }
  }

  ghost predicate IsOctets(v: Value, raw: seq<byte>) {
    v.body.TupleV? && |v.body.items| == 1 && v.body.items[0].body == Octets(raw)
  }

  ghost predicate IsDigest(rd: Reading, v: Value, d: Symbols.Digest) {
    v.body.TupleV? && |v.body.items| == 1 && v.body.items[0].body.Octets? && |v.body.items[0].body.raw| == 32
    && rd.digest(v.body.items[0].body.raw) == d
  }

  ghost predicate IsData(rd: Reading, v: Value, x: Operations.Data) {
    v.body.TupleV? && |v.body.items| == 1 && v.body.items[0].body.Octets? && rd.data(v.body.items[0].body.raw) == x
  }

  lemma {:induction false} DigestRead(rd: Reading, v: Value) returns (d: Symbols.Digest)
    requires WellTyped(OP_ID, v)
    ensures IsDigest(rd, v, d)
  {
    Wrapped(Array(BYTE, 32), v);
    d := rd.digest(v.body.items[0].body.raw);
  }

  lemma {:induction false} DataRead(rd: Reading, v: Value) returns (x: Operations.Data)
    requires Sensible(rd) && WellTyped(DATA, v)
    ensures IsData(rd, v, x) && Symbols.ByteLength(x) < U16
  {
    Wrapped(List(BYTE, 0, 0xffff), v);
    x := rd.data(v.body.items[0].body.raw);
  }

  ghost predicate IsState(rd: Reading, kind: Operations.Class, v: Value, s: Operations.State) {
    match s
    case Declarative => kind == Operations.DeclarativeClass && v.body.Unit?
    case Fungible(amount) =>
      && kind == Operations.FungibleClass && v.body.TupleV? && |v.body.items| == 1 && v.body.items[0].body.UnionV?
      && v.body.items[0].body.inner.body.TupleV? && |v.body.items[0].body.inner.body.items| == 1
      && IsNumber(v.body.items[0].body.inner.body.items[0], amount)
    case Structured(data) => kind == Operations.StructuredClass && IsData(rd, v, data)
  }

  lemma {:induction false} AmountRead(v: Value) returns (n: nat)
    requires WellTyped(AMOUNT, v)
    ensures v.body.TupleV? && |v.body.items| == 1 && v.body.items[0].body.UnionV?
    ensures v.body.items[0].body.inner.body.TupleV? && |v.body.items[0].body.inner.body.items| == 1
    ensures IsNumber(v.body.items[0].body.inner.body.items[0], n) && n < U64
  {
    hide WellTyped;
    var vs := [Variant("bits64", 8)];
    Wrapped(Union(vs, [Tuple([Prim(8)])]), v);
    UnionStep(vs, [Tuple([Prim(8)])], v.body.items[0]);
    Wrapped(Prim(8), v.body.items[0].body.inner);
    NumberRead(8, v.body.items[0].body.inner.body.items[0]);
    Pow256Widths();
    n := v.body.items[0].body.inner.body.items[0].body.unsigned.value;
  }

  lemma {:induction false} StateRead(rd: Reading, kind: Operations.Class, v: Value) returns (s: Operations.State)
    requires Sensible(rd) && WellTyped(StateTy(kind), v)
    ensures IsState(rd, kind, v, s) && Operations.ClassOf(s) == kind && Operations.CanonicalState(s)
  {
    match kind
    case DeclarativeClass => s := Operations.Declarative;
    case FungibleClass =>
      var n := AmountRead(v);
      s := Operations.Fungible(n);
    case StructuredClass =>
      var x := DataRead(rd, v);
      s := Operations.Structured(x);
  }

  ghost predicate IsPtr(rd: Reading, v: Value, p: Operations.TxPtr) {
    v.body.UnionV? &&
    match p
    case WitnessTx => v.body.name == "witnessTx"
    case TxId(txid) => v.body.name == "txid" && v.body.inner.body.TupleV? && |v.body.inner.body.items| == 1 && IsDigest(rd, v.body.inner.body.items[0], txid)
  }

  ghost predicate IsSeal(rd: Reading, v: Value, s: Operations.Seal) {
    && v.body.StructV? && v.body.names == SEAL_NAMES && |v.body.items| == 3
    && v.body.items[1].body.TupleV? && |v.body.items[1].body.items| == 1
    && IsNumber(v.body.items[1].body.items[0], s.vout) && IsNumber(v.body.items[2], s.blinding)
    && match s
       case BlindSeal(txid, _, _) => IsDigest(rd, v.body.items[0], txid)
       case GraphSeal(ptr, _, _) => IsPtr(rd, v.body.items[0], ptr)
  }

  lemma {:induction false} PtrRead(rd: Reading, v: Value) returns (p: Operations.TxPtr)
    requires WellTyped(TX_PTR, v)
    ensures IsPtr(rd, v, p)
  {
    hide WellTyped;
    UnionStep(TX_PTR.variants, TX_PTR.tys, v);
    if v.body.tag == 0 {
      p := Operations.WitnessTx;
    } else {
      Wrapped(OP_ID, v.body.inner);
      var d := DigestRead(rd, v.body.inner.body.items[0]);
      p := Operations.TxId(d);
    }
  }

  lemma {:induction false} SealRead(rd: Reading, genesis: bool, v: Value) returns (s: Operations.Seal)
    requires WellTyped(Struct(SEAL_NAMES, SealFields(genesis)), v)
    ensures IsSeal(rd, v, s) && s.BlindSeal? == genesis && Operations.CanonicalSeal(s)
  {
    hide WellTyped, IsDigest, IsPtr;
    var ts := SealFields(genesis);
    StructStep(SEAL_NAMES, ts, v);
    var items := v.body.items;
    assert WellTyped(ts[0], items[0]) && WellTyped(ts[1], items[1]) && WellTyped(ts[2], items[2]);
    Wrapped(Prim(4), items[1]);
    NumberRead(4, items[1].body.items[0]);
    NumberRead(8, items[2]);
    Pow256Widths();
    var vout, blinding := items[1].body.items[0].body.unsigned.value, items[2].body.unsigned.value;
    if genesis {
      var d := DigestRead(rd, items[0]);
      s := Operations.BlindSeal(d, vout, blinding);
    } else {
      var p := PtrRead(rd, items[0]);
      s := Operations.GraphSeal(p, vout, blinding);
    }
  }

  ghost predicate IsAssignment(rd: Reading, kind: Operations.Class, v: Value, a: Operations.Assignment) {
    && v.body.UnionV? && v.body.inner.body.StructV? && v.body.inner.body.names == ASSIGN_NAMES && |v.body.inner.body.items| == 2
    && IsState(rd, kind, v.body.inner.body.items[1], a.state)
    && match a
       case Revealed(seal, _) => v.body.name == "revealed" && IsSeal(rd, v.body.inner.body.items[0], seal)
       case Confidential(secret, _) => v.body.name == "confidentialSeal" && IsDigest(rd, v.body.inner.body.items[0], secret)
  }

  lemma {:induction false} SealedRead(rd: Reading, first: Ty, kind: Operations.Class, v: Value) returns (state: Operations.State)
    requires Sensible(rd) && WellTyped(Struct(ASSIGN_NAMES, [first, StateTy(kind)]), v)
    ensures v.body.StructV? && v.body.names == ASSIGN_NAMES && |v.body.items| == 2 && WellTyped(first, v.body.items[0])
    ensures IsState(rd, kind, v.body.items[1], state) && Operations.ClassOf(state) == kind && Operations.CanonicalState(state)
  {
    hide WellTyped, IsState, StateTy, Sensible;
    var ts := [first, StateTy(kind)];
    StructStep(ASSIGN_NAMES, ts, v);
    assert WellTyped(ts[0], v.body.items[0]) && WellTyped(ts[1], v.body.items[1]);
    state := StateRead(rd, kind, v.body.items[1]);
  }

  lemma {:induction false} VariantOf(genesis: bool, kind: Operations.Class, v: Value)
    requires WellTyped(AssignTy(genesis, kind), v)
    ensures v.body.UnionV?
    ensures || (v.body.name == "revealed" && WellTyped(Struct(ASSIGN_NAMES, [Struct(SEAL_NAMES, SealFields(genesis)), StateTy(kind)]), v.body.inner))
            || (v.body.name == "confidentialSeal" && WellTyped(Struct(ASSIGN_NAMES, [OP_ID, StateTy(kind)]), v.body.inner))
  {
    hide WellTyped, StateTy, SealFields;
    UnionStep(ASSIGN_VARIANTS, AssignTy(genesis, kind).tys, v);
  }

  lemma {:induction false} AssignmentRead(rd: Reading, genesis: bool, kind: Operations.Class, v: Value) returns (a: Operations.Assignment)
    requires Sensible(rd) && WellTyped(AssignTy(genesis, kind), v)
    ensures IsAssignment(rd, kind, v, a) && Operations.CanonicalAssignment(kind, a)
  {
    hide WellTyped, IsState, IsSeal, IsDigest, StateTy, Sensible, SealFields, AssignTy, Operations.CanonicalSeal, Operations.CanonicalState;
    VariantOf(genesis, kind, v);
    var inner := v.body.inner;
    if v.body.name == "revealed" && WellTyped(Struct(ASSIGN_NAMES, [Struct(SEAL_NAMES, SealFields(genesis)), StateTy(kind)]), inner) {
      var state := SealedRead(rd, Struct(SEAL_NAMES, SealFields(genesis)), kind, inner);
      var seal := SealRead(rd, genesis, inner.body.items[0]);
      a := Operations.Revealed(seal, state);
    } else {
      var state := SealedRead(rd, OP_ID, kind, inner);
      var secret := DigestRead(rd, inner.body.items[0]);
      a := Operations.Confidential(secret, state);
    }
  }

  // ----- lists and maps

  ghost predicate AreAssignments(rd: Reading, kind: Operations.Class, items: seq<Value>, assigns: seq<Operations.Assignment>) {
    |assigns| == |items| && forall i :: 0 <= i < |items| ==> IsAssignment(rd, kind, items[i], assigns[i])
  }

  lemma {:induction false} AssignmentsRead(rd: Reading, genesis: bool, kind: Operations.Class, items: seq<Value>) returns (assigns: seq<Operations.Assignment>)
    requires Sensible(rd) && forall i :: 0 <= i < |items| ==> WellTyped(AssignTy(genesis, kind), items[i])
    ensures AreAssignments(rd, kind, items, assigns)
    ensures forall i :: 0 <= i < |assigns| ==> Operations.CanonicalAssignment(kind, assigns[i])
  {
    hide WellTyped, IsAssignment, AssignTy, Sensible, Operations.CanonicalAssignment;
    if items == [] {
      assigns := [];
    } else {
      var n := |items| - 1;
      var front := AssignmentsRead(rd, genesis, kind, items[..n]);
      var last := AssignmentRead(rd, genesis, kind, items[n]);
      assigns := front + [last];
      forall i | 0 <= i < |items| ensures IsAssignment(rd, kind, items[i], assigns[i]) && Operations.CanonicalAssignment(kind, assigns[i]) {
        assert i < n ==> items[i] == items[..n][i] && assigns[i] == front[i];
      }
    }
  }

  ghost predicate IsKey(v: Value, n: nat) {
    v.body.TupleV? && |v.body.items| == 1 && IsNumber(v.body.items[0], n)
  }

  lemma {:induction false} KeyRead(v: Value) returns (n: nat)
    requires WellTyped(TYPE_ID, v)
    ensures IsKey(v, n) && n < U16
  {
    TypeIdReads(v);
    n := v.body.items[0].body.unsigned.value;
  }

  /** Keys of a canonical map read as strictly increasing type ids. */
  lemma {:induction false} KeysRise(items: seq<Value>, i: nat, j: nat, m: nat, n: nat)
    requires |items| % 2 == 0 && Increasing(Keys(items)) && i < j < |items| / 2
    requires forall k :: 0 <= k < |items| / 2 ==> WellTyped(TYPE_ID, items[2 * k])
    requires IsKey(items[2 * i], m) && IsKey(items[2 * j], n)
    ensures m < n
  {
    hide WellTyped, Increasing, NumberOf, Less;
    var keys := Keys(items);
    forall k | 0 <= k < |keys| ensures WellTyped(TYPE_ID, keys[k]) { assert keys[k] == items[2 * k]; }
    IncreasingEverywhere(TYPE_ID, keys, i, j);
    TypeIdsCompare(items[2 * i], items[2 * j]);
    TypeIdReads(items[2 * i]);
    TypeIdReads(items[2 * j]);
  }

  ghost predicate IsEntry(rd: Reading, key: Value, val: Value, e: Operations.Entry) {
    && IsKey(key, e.ty) && val.body.UnionV? && WrapsList(val.body.inner)
    && val.body.name == ClassName(e.kind)
    && AreAssignments(rd, e.kind, ListIn(val.body.inner), e.assigns)
  }

  /** A list behind two newtypes. */
  ghost predicate WrapsList(v: Value) {
    && v.body.TupleV? && |v.body.items| == 1 && v.body.items[0].body.TupleV? && |v.body.items[0].body.items| == 1
    && v.body.items[0].body.items[0].body.ListV?
  }

  ghost function ListIn(v: Value): seq<Value>
    requires WrapsList(v)
  {
    v.body.items[0].body.items[0].body.items
  }

  lemma {:induction false} NotFlat(genesis: bool, kind: Operations.Class)
    ensures !Flat(AssignTy(genesis, kind)) && !Flat(DATA)
  {
    assert !CharEnum(List(BYTE, 0, 0xffff));
    assert DATA.tys[0] == List(BYTE, 0, 0xffff);
  }

  function ClassName(kind: Operations.Class): string {
    match kind
    case DeclarativeClass => "declarative"
    case FungibleClass => "fungible"
    case StructuredClass => "structured"
  }

  lemma {:induction false} ClassTag(tag: byte)
    requires FindTag(CLASSES, tag).Some?
    ensures FindTag(CLASSES, tag).value < 3
    ensures CLASSES[FindTag(CLASSES, tag).value].name == ClassName(ClassAt(FindTag(CLASSES, tag).value))
  {
  }

  lemma {:induction false} TypedRead(genesis: bool, val: Value) returns (kind: Operations.Class)
    requires WellTyped(TypedTy(genesis), val)
    ensures val.body.UnionV? && val.body.name == ClassName(kind) && WellTyped(AssignsTy(genesis, kind), val.body.inner)
  {
    hide WellTyped, AssignsTy, FindTag, ClassName;
    var tys := TypedTy(genesis).tys;
    UnionStep(CLASSES, tys, val);
    ClassTag(val.body.tag);
    var i := FindTag(CLASSES, val.body.tag).value;
    kind := ClassAt(i);
    assert tys[i] == AssignsTy(genesis, kind);
  }

  lemma {:induction false} ListRead(genesis: bool, kind: Operations.Class, v: Value)
    requires WellTyped(AssignsTy(genesis, kind), v)
    ensures WrapsList(v) && 1 <= |ListIn(v)| <= 0xffff && forall i :: 0 <= i < |ListIn(v)| ==> WellTyped(AssignTy(genesis, kind), ListIn(v)[i])
  {
    hide WellTyped, AssignTy, Flat;
    var list := List(AssignTy(genesis, kind), 1, 0xffff);
    Wrapped(Tuple([list]), v);
    Wrapped(list, v.body.items[0]);
    NotFlat(genesis, kind);
    ListStep(AssignTy(genesis, kind), 1, 0xffff, v.body.items[0].body.items[0]);
  }

  lemma {:induction false} EntryRead(rd: Reading, genesis: bool, key: Value, val: Value) returns (e: Operations.Entry)
    requires Sensible(rd) && WellTyped(TYPE_ID, key) && WellTyped(TypedTy(genesis), val)
    ensures IsEntry(rd, key, val, e) && Operations.CanonicalEntry(e)
  {
    hide WellTyped, AssignTy, AssignsTy, TypedTy, Sensible, AreAssignments, IsKey, WrapsList, ListIn, Operations.CanonicalAssignment;
    var ty := KeyRead(key);
    var kind := TypedRead(genesis, val);
    ListRead(genesis, kind, val.body.inner);
    var assigns := AssignmentsRead(rd, genesis, kind, ListIn(val.body.inner));
    e := Operations.Entry(ty, kind, assigns);
    SameNumber(rd, kind, ListIn(val.body.inner), assigns);
  }

  lemma {:induction false} SameNumber(rd: Reading, kind: Operations.Class, items: seq<Value>, assigns: seq<Operations.Assignment>)
    requires AreAssignments(rd, kind, items, assigns)
    ensures |assigns| == |items|
  {
  }

  ghost predicate AreEntries(rd: Reading, items: seq<Value>, es: seq<Operations.Entry>) {
    |items| == 2 * |es| && forall i :: 0 <= i < |es| ==> IsEntry(rd, items[2 * i], items[2 * i + 1], es[i])
  }

  lemma {:induction false} EntriesRead(rd: Reading, genesis: bool, items: seq<Value>) returns (es: seq<Operations.Entry>)
    requires Sensible(rd) && |items| % 2 == 0
    requires EachTyped(TYPE_ID, TypedTy(genesis), items)
    ensures AreEntries(rd, items, es) && forall i :: 0 <= i < |es| ==> Operations.CanonicalEntry(es[i])
  {
    hide WellTyped, IsEntry, TypedTy, Sensible, Operations.CanonicalEntry;
    if items == [] {
      es := [];
    } else {
      var n := |items| / 2 - 1;
      var front := EntriesRead(rd, genesis, items[..2 * n]);
      var last := EntryRead(rd, genesis, items[2 * n], items[2 * n + 1]);
      es := front + [last];
      forall i | 0 <= i < |es| ensures IsEntry(rd, items[2 * i], items[2 * i + 1], es[i]) && Operations.CanonicalEntry(es[i]) {
        assert i < n ==> items[2 * i] == items[..2 * n][2 * i] && items[2 * i + 1] == items[..2 * n][2 * i + 1] && es[i] == front[i];
      }
    }
  }

  ghost predicate IsAssignments(rd: Reading, v: Value, es: seq<Operations.Entry>) {
    v.body.TupleV? && |v.body.items| == 1 && v.body.items[0].body.MapV? && AreEntries(rd, v.body.items[0].body.items, es)
  }

  /** The assignments of a decoded operation are canonical. */
  lemma {:induction false} AllAssignmentsRead(rd: Reading, genesis: bool, v: Value) returns (es: seq<Operations.Entry>)
    requires Sensible(rd) && WellTyped(AssignmentsTy(genesis), v)
    ensures IsAssignments(rd, v, es) && Operations.CanonicalEntries(es)
  {
    hide WellTyped, TypedTy, Sensible, Operations.CanonicalEntry, Increasing;
    Wrapped(Map(TYPE_ID, TypedTy(genesis), 0, 0xffff), v);
    MapStep(TYPE_ID, TypedTy(genesis), 0, 0xffff, v.body.items[0]);
    var items := v.body.items[0].body.items;
    es := EntriesRead(rd, genesis, items);
    forall i, j | 0 <= i < j < |es| ensures es[i].ty < es[j].ty {
      EntryKey(rd, items, es, i);
      EntryKey(rd, items, es, j);
      KeysRise(items, i, j, es[i].ty, es[j].ty);
    }
  }

  lemma {:induction false} EntryKey(rd: Reading, items: seq<Value>, es: seq<Operations.Entry>, i: nat)
    requires AreEntries(rd, items, es) && i < |es|
    ensures |items| == 2 * |es| && IsKey(items[2 * i], es[i].ty)
  {
    hide AreAssignments, IsKey;
    assert IsEntry(rd, items[2 * i], items[2 * i + 1], es[i]);
  }

  // ----- globals and metadata

  ghost predicate AreValues(rd: Reading, items: seq<Value>, xs: seq<Operations.Data>) {
    |xs| == |items| && forall i :: 0 <= i < |items| ==> IsData(rd, items[i], xs[i])
  }

  lemma {:induction false} ValuesRead(rd: Reading, items: seq<Value>) returns (xs: seq<Operations.Data>)
    requires Sensible(rd) && forall i :: 0 <= i < |items| ==> WellTyped(DATA, items[i])
    ensures AreValues(rd, items, xs) && forall i :: 0 <= i < |xs| ==> Symbols.ByteLength(xs[i]) < U16
  {
    hide WellTyped, IsData, Sensible;
    if items == [] {
      xs := [];
    } else {
      var n := |items| - 1;
      var front := ValuesRead(rd, items[..n]);
      var last := DataRead(rd, items[n]);
      xs := front + [last];
      forall i | 0 <= i < |items| ensures IsData(rd, items[i], xs[i]) && Symbols.ByteLength(xs[i]) < U16 {
        assert i < n ==> items[i] == items[..n][i] && xs[i] == front[i];
      }
    }
  }

  ghost predicate IsGlobal(rd: Reading, key: Value, val: Value, g: Operations.Global) {
    && IsKey(key, g.ty) && val.body.TupleV? && |val.body.items| == 1 && val.body.items[0].body.ListV?
    && AreValues(rd, val.body.items[0].body.items, g.values)
  }

  lemma {:induction false} GlobalRead(rd: Reading, key: Value, val: Value) returns (g: Operations.Global)
    requires Sensible(rd) && WellTyped(TYPE_ID, key) && WellTyped(VALUES, val)
    ensures IsGlobal(rd, key, val, g) && Operations.CanonicalGlobal(g)
  {
    hide WellTyped, IsData, Sensible, IsKey, Flat;
    var ty := KeyRead(key);
    Wrapped(List(DATA, 1, 0xffff), val);
    NotFlat(false, Operations.DeclarativeClass);
    ListStep(DATA, 1, 0xffff, val.body.items[0]);
    var values := ValuesRead(rd, val.body.items[0].body.items);
    g := Operations.Global(ty, values);
  }

  ghost predicate AreGlobals(rd: Reading, items: seq<Value>, gs: seq<Operations.Global>) {
    |items| == 2 * |gs| && forall i :: 0 <= i < |gs| ==> IsGlobal(rd, items[2 * i], items[2 * i + 1], gs[i])
  }

  lemma {:induction false} GlobalsRead(rd: Reading, items: seq<Value>) returns (gs: seq<Operations.Global>)
    requires Sensible(rd) && |items| % 2 == 0
    requires EachTyped(TYPE_ID, VALUES, items)
    ensures AreGlobals(rd, items, gs) && forall i :: 0 <= i < |gs| ==> Operations.CanonicalGlobal(gs[i])
  {
    hide WellTyped, IsGlobal, Sensible, Operations.CanonicalGlobal;
    if items == [] {
      gs := [];
    } else {
      var n := |items| / 2 - 1;
      var front := GlobalsRead(rd, items[..2 * n]);
      var last := GlobalRead(rd, items[2 * n], items[2 * n + 1]);
      gs := front + [last];
      forall i | 0 <= i < |gs| ensures IsGlobal(rd, items[2 * i], items[2 * i + 1], gs[i]) && Operations.CanonicalGlobal(gs[i]) {
        assert i < n ==> items[2 * i] == items[..2 * n][2 * i] && items[2 * i + 1] == items[..2 * n][2 * i + 1] && gs[i] == front[i];
      }
    }
  }

  ghost predicate IsGlobals(rd: Reading, v: Value, gs: seq<Operations.Global>) {
    v.body.TupleV? && |v.body.items| == 1 && v.body.items[0].body.MapV? && AreGlobals(rd, v.body.items[0].body.items, gs)
  }

  lemma {:induction false} AllGlobalsRead(rd: Reading, v: Value) returns (gs: seq<Operations.Global>)
    requires Sensible(rd) && WellTyped(GLOBALS, v)
    ensures IsGlobals(rd, v, gs) && Operations.CanonicalGlobals(gs)
  {
    hide WellTyped, Sensible, Operations.CanonicalGlobal, Increasing, AreValues;
    Wrapped(Map(TYPE_ID, VALUES, 0, 0xff), v);
    MapStep(TYPE_ID, VALUES, 0, 0xff, v.body.items[0]);
    var items := v.body.items[0].body.items;
    gs := GlobalsRead(rd, items);
    forall i, j | 0 <= i < j < |gs| ensures gs[i].ty < gs[j].ty {
      assert IsGlobal(rd, items[2 * i], items[2 * i + 1], gs[i]) && IsGlobal(rd, items[2 * j], items[2 * j + 1], gs[j]);
      KeysRise(items, i, j, gs[i].ty, gs[j].ty);
    }
  }

  ghost predicate AreMetadata(rd: Reading, items: seq<Value>, ms: seq<Operations.Meta>) {
    |items| == 2 * |ms| && forall i :: 0 <= i < |ms| ==> IsKey(items[2 * i], ms[i].ty) && IsData(rd, items[2 * i + 1], ms[i].value)
  }

  lemma {:induction false} EachMetaRead(rd: Reading, items: seq<Value>) returns (ms: seq<Operations.Meta>)
    requires Sensible(rd) && |items| % 2 == 0
    requires EachTyped(TYPE_ID, DATA, items)
    ensures AreMetadata(rd, items, ms) && forall i :: 0 <= i < |ms| ==> ms[i].ty < U16 && Symbols.ByteLength(ms[i].value) < U16
  {
    hide WellTyped, IsKey, IsData, Sensible;
    if items == [] {
      ms := [];
    } else {
      var n := |items| / 2 - 1;
      var front := EachMetaRead(rd, items[..2 * n]);
      var ty := KeyRead(items[2 * n]);
      var value := DataRead(rd, items[2 * n + 1]);
      ms := front + [Operations.Meta(ty, value)];
      forall i | 0 <= i < |ms|
        ensures IsKey(items[2 * i], ms[i].ty) && IsData(rd, items[2 * i + 1], ms[i].value) && ms[i].ty < U16 && Symbols.ByteLength(ms[i].value) < U16
      {
        assert i < n ==> items[2 * i] == items[..2 * n][2 * i] && items[2 * i + 1] == items[..2 * n][2 * i + 1] && ms[i] == front[i];
      }
    }
  }

  ghost predicate IsMetadata(rd: Reading, v: Value, ms: seq<Operations.Meta>) {
    v.body.TupleV? && |v.body.items| == 1 && v.body.items[0].body.MapV? && AreMetadata(rd, v.body.items[0].body.items, ms)
  }

  lemma {:induction false} MetadataRead(rd: Reading, v: Value) returns (ms: seq<Operations.Meta>)
    requires Sensible(rd) && WellTyped(METADATA, v)
    ensures IsMetadata(rd, v, ms) && Operations.CanonicalMetadata(ms)
  {
    hide WellTyped, Sensible, Increasing, IsKey, IsData;
    Wrapped(Map(TYPE_ID, DATA, 0, 0xff), v);
    MapStep(TYPE_ID, DATA, 0, 0xff, v.body.items[0]);
    ms := EachMetaRead(rd, v.body.items[0].body.items);
  }

  // ----- inputs

  ghost predicate IsRef(rd: Reading, v: Value, r: Operations.InputRef) {
    exists x: Ref :: Parts(v, x) && r == Operations.InputRef(rd.digest(x.op), x.ty, x.no)
  }

  lemma {:induction false} RefIs(rd: Reading, v: Value) returns (r: Operations.InputRef)
    requires WellTyped(OPOUT, v)
    ensures IsRef(rd, v, r) && Operations.CanonicalRef(r)
  {
    hide WellTyped;
    var x := OpoutParts(v);
    r := Operations.InputRef(rd.digest(x.op), x.ty, x.no);
  }

  /** Two items that read as one reference are no two items of an increasing list. */
  lemma {:induction false} RefsApart(rd: Reading, items: seq<Value>, i: nat, j: nat, r: Operations.InputRef, s: Operations.InputRef)
    requires Sensible(rd) && (forall k :: 0 <= k < |items| ==> WellTyped(OPOUT, items[k])) && Increasing(items) && i < j < |items|
    requires IsRef(rd, items[i], r) && IsRef(rd, items[j], s)
    ensures r != s
  {
    hide WellTyped, Increasing, Parts;
    var x: Ref :| Parts(items[i], x) && r == Operations.InputRef(rd.digest(x.op), x.ty, x.no);
    var y: Ref :| Parts(items[j], y) && s == Operations.InputRef(rd.digest(y.op), y.ty, y.no);
    PartsRead(items[i], x);
    PartsRead(items[j], y);
    RefsDiffer(items, i, j);
    assert |x.op| == 32 && |y.op| == 32 by { PartsBytes(items[i], x); PartsBytes(items[j], y); }
  }

  lemma {:induction false} PartsBytes(v: Value, x: Ref)
    requires Parts(v, x)
    ensures |x.op| == 32
  {
  }

  ghost predicate AreRefs(rd: Reading, items: seq<Value>, inputs: seq<Operations.InputRef>) {
    |inputs| == |items| && forall i :: 0 <= i < |items| ==> IsRef(rd, items[i], inputs[i])
  }

  lemma {:induction false} RefsRead(rd: Reading, items: seq<Value>) returns (inputs: seq<Operations.InputRef>)
    requires forall i :: 0 <= i < |items| ==> WellTyped(OPOUT, items[i])
    ensures AreRefs(rd, items, inputs) && forall i :: 0 <= i < |inputs| ==> Operations.CanonicalRef(inputs[i])
  {
    hide WellTyped, IsRef;
    if items == [] {
      inputs := [];
    } else {
      var n := |items| - 1;
      var front := RefsRead(rd, items[..n]);
      var last := RefIs(rd, items[n]);
      inputs := front + [last];
      forall i | 0 <= i < |items| ensures IsRef(rd, items[i], inputs[i]) && Operations.CanonicalRef(inputs[i]) {
        assert i < n ==> items[i] == items[..n][i] && inputs[i] == front[i];
      }
    }
  }

  ghost predicate IsInputs(rd: Reading, v: Value, inputs: seq<Operations.InputRef>) {
    v.body.TupleV? && |v.body.items| == 1 && v.body.items[0].body.SetV? && AreRefs(rd, v.body.items[0].body.items, inputs)
  }

  lemma {:induction false} SetStep(e: Ty, min: u64, max: u64, v: Value)
    requires WellTyped(Set(e, min, max), v)
    ensures v.body.SetV? && min <= |v.body.items| <= max && Increasing(v.body.items)
    ensures forall i :: 0 <= i < |v.body.items| ==> WellTyped(e, v.body.items[i])
  {
    var items := v.body.items;
    hide Copies, Increasing, Stamp, StampAll;
    forall i | 0 <= i < |items| ensures WellTyped(e, items[i]) {
      WellTypedAt(Copies(e, |items|), items, i);
    }
  }

  lemma {:induction false} InputsRead(rd: Reading, v: Value) returns (inputs: seq<Operations.InputRef>)
    requires Sensible(rd) && WellTyped(Tuple([INPUTS]), v)
    ensures IsInputs(rd, v, inputs) && 1 <= |inputs| < U16 && Operations.Distinct(inputs)
    ensures forall i :: 0 <= i < |inputs| ==> Operations.CanonicalRef(inputs[i])
  {
    hide WellTyped, IsRef, Sensible, Increasing;
    Wrapped(INPUTS, v);
    SetStep(OPOUT, 1, 0xffff, v.body.items[0]);
    var items := v.body.items[0].body.items;
    inputs := RefsRead(rd, items);
    forall i, j | 0 <= i < j < |inputs| ensures inputs[i] != inputs[j] {
      RefsApart(rd, items, i, j, inputs[i], inputs[j]);
    }
  }

  // ----- transitions

  const SIGNATURE: Ty := Union([Variant("none", 0), Variant("some", 1)], [Prim(0), Tuple([Tuple([Array(BYTE, 64)])])])

  const TRANSITION_NAMES: seq<string> :=
    ["ffv", "contractId", "nonce", "transitionType", "metadata", "globals", "inputs", "assignments", "signature"]

  const TRANSITION_FIELDS: seq<Ty> :=
    [TYPE_ID, OP_ID, Prim(8), TYPE_ID, METADATA, GLOBALS, Tuple([INPUTS]), AssignmentsTy(false), SIGNATURE]

  const TRANSITION: Ty := Struct(TRANSITION_NAMES, TRANSITION_FIELDS)

  ghost predicate IsSignature(v: Value, s: Option<seq<byte>>) {
    v.body.UnionV? &&
    if s.None? then v.body.name == "none"
    else v.body.name == "some" && v.body.inner.body.TupleV? && |v.body.inner.body.items| == 1 && IsOctets(v.body.inner.body.items[0], s.value)
  }

  lemma {:induction false} SignatureRead(v: Value) returns (s: Option<seq<byte>>)
    requires WellTyped(SIGNATURE, v)
    ensures IsSignature(v, s)
  {
    hide WellTyped;
    UnionStep(SIGNATURE.variants, SIGNATURE.tys, v);
    if v.body.tag == 0 {
      s := None;
    } else {
      var raw := Array(BYTE, 64);
      Wrapped(Tuple([raw]), v.body.inner);
      Wrapped(raw, v.body.inner.body.items[0]);
      ArrayOctets(v.body.inner.body.items[0].body.items[0]);
      s := Some(v.body.inner.body.items[0].body.items[0].body.raw);
    }
  }

  lemma {:induction false} ArrayOctets(v: Value)
    requires WellTyped(Array(BYTE, 64), v)
    ensures v.body.Octets?
  {
  }

  /** The transition that a decoded value is. */
  ghost predicate IsTransition(rd: Reading, v: Value, t: Operations.Transition) {
    && v.body.StructV? && v.body.names == TRANSITION_NAMES && |v.body.items| == 9
    && IsKey(v.body.items[0], t.ffv) && IsDigest(rd, v.body.items[1], t.contractId) && IsNumber(v.body.items[2], t.nonce)
    && IsKey(v.body.items[3], t.ty) && IsMetadata(rd, v.body.items[4], t.metadata) && IsGlobals(rd, v.body.items[5], t.globals)
    && IsInputs(rd, v.body.items[6], t.inputs) && IsAssignments(rd, v.body.items[7], t.assignments) && IsSignature(v.body.items[8], t.signature)
  }

  lemma {:induction false} TransitionParts(v: Value)
    requires WellTyped(TRANSITION, v)
    ensures v.body.StructV? && v.body.names == TRANSITION_NAMES && |v.body.items| == 9
    ensures WellTyped(TYPE_ID, v.body.items[0]) && WellTyped(OP_ID, v.body.items[1]) && WellTyped(Prim(8), v.body.items[2])
    ensures WellTyped(TYPE_ID, v.body.items[3]) && WellTyped(METADATA, v.body.items[4]) && WellTyped(GLOBALS, v.body.items[5])
    ensures WellTyped(Tuple([INPUTS]), v.body.items[6]) && WellTyped(AssignmentsTy(false), v.body.items[7]) && WellTyped(SIGNATURE, v.body.items[8])
  {
    hide WellTyped, AssignmentsTy;
    StructStep(TRANSITION_NAMES, TRANSITION_FIELDS, v);
    var fs, items := TRANSITION_FIELDS, v.body.items;
    assert WellTyped(fs[0], items[0]) && WellTyped(fs[1], items[1]) && WellTyped(fs[2], items[2]);
    assert WellTyped(fs[3], items[3]) && WellTyped(fs[4], items[4]) && WellTyped(fs[5], items[5]);
    assert WellTyped(fs[6], items[6]) && WellTyped(fs[7], items[7]) && WellTyped(fs[8], items[8]);
  }

  /** Every well-typed value of a transition reads as a canonical transition with inputs. */
  lemma {:induction false} TransitionRead(rd: Reading, v: Value) returns (t: Operations.Transition)
    requires Sensible(rd) && WellTyped(TRANSITION, v)
    ensures IsTransition(rd, v, t) && Operations.CanonicalTransition(t) && t.inputs != []
  {
    hide WellTyped, IsKey, IsDigest, IsMetadata, IsGlobals, IsInputs, IsAssignments, IsSignature, Sensible, AssignmentsTy,
         Operations.CanonicalMetadata, Operations.CanonicalGlobals, Operations.CanonicalEntries, Operations.Distinct;
    TransitionParts(v);
    var items := v.body.items;
    var ffv := KeyRead(items[0]);
    var contract := DigestRead(rd, items[1]);
    NumberRead(8, items[2]);
    Pow256Widths();
    var ty := KeyRead(items[3]);
    var metadata := MetadataRead(rd, items[4]);
    var globals := AllGlobalsRead(rd, items[5]);
    var inputs := InputsRead(rd, items[6]);
    var assignments := AllAssignmentsRead(rd, false, items[7]);
    var signature := SignatureRead(items[8]);
    t := Operations.Transition(ffv, items[2].body.unsigned.value, contract, ty, metadata, globals, inputs, assignments, signature);
  }

  /** Whatever bytes decode as a transition: the transition they are is canonical. */
  lemma {:induction false} DecodedTransition(rd: Reading, d: seq<byte>) returns (t: Operations.Transition)
    requires Sensible(rd) && Decode(TRANSITION, d).Some?
    ensures IsTransition(rd, Decode(TRANSITION, d).value, t) && Operations.CanonicalTransition(t) && t.inputs != []
  {
    hide Dec, WellTyped, Enc, Stamp, IsTransition, Sensible;
    DecodedEncodes(TRANSITION, d);
    t := TransitionRead(rd, Decode(TRANSITION, d).value);
  }

  // ----- genesis

  const GENESIS_NAMES: seq<string> :=
    ["ffv", "schemaId", "timestamp", "issuer", "chainNet", "sealClosingStrategy", "metadata", "globals", "assignments"]

  function IssuerTy(ascii: Ty): Ty {
    Tuple([Tuple([ascii, List(ascii, 0, 4095)])])
  }

  function GenesisFields(ascii: Ty, chains: seq<Variant>, strategies: seq<Variant>): seq<Ty> {
    [TYPE_ID, OP_ID, Prim(0x48), IssuerTy(ascii), Enum(chains), Enum(strategies), METADATA, GLOBALS, AssignmentsTy(true)]
  }

  /** Genesis, over the enumerations of printable characters, chains and strategies. */
  function GenesisTy(ascii: Ty, chains: seq<Variant>, strategies: seq<Variant>): Ty {
    Struct(GENESIS_NAMES, GenesisFields(ascii, chains, strategies))
  }

  /** A signed number, as the pattern of its eight bytes. */
  ghost predicate IsPattern(v: Value, n: nat) {
    v.body.Number? && n == FromLittleEndian(RawNumber(8, v.body)) && |RawNumber(8, v.body)| == 8
  }

  ghost predicate IsText(rd: Reading, v: Value, x: Operations.Data) {
    v.body.TupleV? && |v.body.items| == 1 && v.body.items[0].body.Str? && rd.data(v.body.items[0].body.text) == x
  }

  ghost predicate IsGenesis(rd: Reading, v: Value, g: Operations.Genesis) {
    && v.body.StructV? && v.body.names == GENESIS_NAMES && |v.body.items| == 9
    && IsKey(v.body.items[0], g.ffv) && IsDigest(rd, v.body.items[1], g.schemaId) && IsPattern(v.body.items[2], g.timestamp)
    && IsText(rd, v.body.items[3], g.issuer)
    && v.body.items[4].body.EnumV? && v.body.items[4].body.tag == g.chain && v.body.items[5].body.EnumV? && v.body.items[5].body.tag == g.strategy
    && IsMetadata(rd, v.body.items[6], g.metadata) && IsGlobals(rd, v.body.items[7], g.globals) && IsAssignments(rd, v.body.items[8], g.assignments)
  }

  lemma {:induction false} PatternRead(v: Value) returns (n: nat)
    requires WellTyped(Prim(0x48), v)
    ensures IsPattern(v, n) && n < U64
  {
    Pow256Widths();
    n := FromLittleEndian(RawNumber(8, v.body));
  }

  lemma {:induction false} TextRead(rd: Reading, ascii: Ty, v: Value) returns (x: Operations.Data)
    requires Sensible(rd) && CharEnum(ascii) && WellTyped(IssuerTy(ascii), v)
    ensures IsText(rd, v, x) && Symbols.ByteLength(x) < U16
  {
    var inner := Tuple([ascii, List(ascii, 0, 4095)]);
    Wrapped(inner, v);
    assert Restricted(inner.tys) == Some((ascii, 1, 4096));
    assert v.body.items[0].body.Str? && |v.body.items[0].body.text| <= 4096;
    x := rd.data(v.body.items[0].body.text);
  }

  lemma {:induction false} EnumRead(vs: seq<Variant>, v: Value)
    requires WellTyped(Enum(vs), v)
    ensures v.body.EnumV?
  {
  }

  lemma {:induction false} GenesisParts(ascii: Ty, chains: seq<Variant>, strategies: seq<Variant>, v: Value)
    requires WellTyped(GenesisTy(ascii, chains, strategies), v)
    ensures v.body.StructV? && v.body.names == GENESIS_NAMES && |v.body.items| == 9
    ensures WellTyped(TYPE_ID, v.body.items[0]) && WellTyped(OP_ID, v.body.items[1]) && WellTyped(Prim(0x48), v.body.items[2])
    ensures WellTyped(IssuerTy(ascii), v.body.items[3]) && WellTyped(Enum(chains), v.body.items[4]) && WellTyped(Enum(strategies), v.body.items[5])
    ensures WellTyped(METADATA, v.body.items[6]) && WellTyped(GLOBALS, v.body.items[7]) && WellTyped(AssignmentsTy(true), v.body.items[8])
  {
    hide WellTyped, AssignmentsTy, IssuerTy;
    var fs := GenesisFields(ascii, chains, strategies);
    StructStep(GENESIS_NAMES, fs, v);
    var items := v.body.items;
    assert WellTyped(fs[0], items[0]) && WellTyped(fs[1], items[1]) && WellTyped(fs[2], items[2]);
    assert WellTyped(fs[3], items[3]) && WellTyped(fs[4], items[4]) && WellTyped(fs[5], items[5]);
    assert WellTyped(fs[6], items[6]) && WellTyped(fs[7], items[7]) && WellTyped(fs[8], items[8]);
  }

  lemma {:induction false} GenesisRead(rd: Reading, ascii: Ty, chains: seq<Variant>, strategies: seq<Variant>, v: Value) returns (g: Operations.Genesis)
    requires Sensible(rd) && CharEnum(ascii) && WellTyped(GenesisTy(ascii, chains, strategies), v)
    ensures IsGenesis(rd, v, g) && Operations.CanonicalGenesis(g)
  {
    hide WellTyped, IsKey, IsDigest, IsMetadata, IsGlobals, IsAssignments, IsPattern, IsText, Sensible, AssignmentsTy, IssuerTy, CharEnum,
         Operations.CanonicalMetadata, Operations.CanonicalGlobals, Operations.CanonicalEntries, GenesisTy;
    GenesisParts(ascii, chains, strategies, v);
    var items := v.body.items;
    var ffv := KeyRead(items[0]);
    var schema := DigestRead(rd, items[1]);
    var timestamp := PatternRead(items[2]);
    var issuer := TextRead(rd, ascii, items[3]);
    EnumRead(chains, items[4]);
    EnumRead(strategies, items[5]);
    var metadata := MetadataRead(rd, items[6]);
    var globals := AllGlobalsRead(rd, items[7]);
    var assignments := AllAssignmentsRead(rd, true, items[8]);
    g := Operations.Genesis(ffv, schema, timestamp, issuer, items[4].body.tag, items[5].body.tag, metadata, globals, assignments);
  }

  /** Whatever bytes decode as a genesis: the genesis they are is canonical. */
  lemma {:induction false} DecodedGenesis(rd: Reading, ascii: Ty, chains: seq<Variant>, strategies: seq<Variant>, d: seq<byte>) returns (g: Operations.Genesis)
    requires Sensible(rd) && CharEnum(ascii) && Decode(GenesisTy(ascii, chains, strategies), d).Some?
    ensures IsGenesis(rd, Decode(GenesisTy(ascii, chains, strategies), d).value, g) && Operations.CanonicalGenesis(g)
  {
    hide Dec, WellTyped, Enc, Stamp, IsGenesis, Sensible, GenesisTy, CharEnum;
    DecodedEncodes(GenesisTy(ascii, chains, strategies), d);
    g := GenesisRead(rd, ascii, chains, strategies, Decode(GenesisTy(ascii, chains, strategies), d).value);
  }

  // ----- what is hashed for an assignment and for a global

  /** Digests and data spell the bytes they were read from. */
  ghost predicate Faithful(rd: Reading, h: Symbols.Digest -> seq<byte>) {
    && (forall b :: |b| == 32 ==> h(rd.digest(b)) == b)
    && (forall b :: Spelled(rd.data(b), h) == b && Symbols.ByteLength(rd.data(b)) == |b|)
  }

  lemma {:induction false} KeyEncoded(v: Value, n: nat)
    requires WellTyped(TYPE_ID, v) && IsKey(v, n)
    ensures Enc(TYPE_ID, v) == Some(LittleEndian(n, 2))
  {
    hide Enc;
    Wrapped(Prim(2), v);
    WrappedEncoded(Prim(2), v);
    ShortNumber(v.body.items[0]);
    ShortEncoded(v.body.items[0], n);
  }

  lemma {:induction false} OctetsEncoded(v: Value)
    requires WellTyped(List(BYTE, 0, 0xffff), v)
    ensures v.body.Octets? && Enc(List(BYTE, 0, 0xffff), v) == Some(LittleEndian(|v.body.raw|, 2) + v.body.raw)
  {
    hide LittleEndian;
    assert Flat(BYTE);
  }

  lemma {:induction false} DataEncoded(rd: Reading, h: Symbols.Digest -> seq<byte>, v: Value, x: Operations.Data)
    requires Faithful(rd, h) && WellTyped(DATA, v) && IsData(rd, v, x)
    ensures Enc(DATA, v) == Some(Spelled(Operations.DataRecord(x), h))
  {
    hide Enc, WellTyped, LittleEndian, Spelled;
    var raw := v.body.items[0].body.raw;
    Wrapped(List(BYTE, 0, 0xffff), v);
    WrappedEncoded(List(BYTE, 0, 0xffff), v);
    OctetsEncoded(v.body.items[0]);
    SpelledConcat(Symbols.LE(|raw|, 2), x, h);
    SpelledPlain(LittleEndian(|raw|, 2), h);
    assert Spelled(rd.data(raw), h) == raw;
  }

  /** The leaf of a global is the encoding of its type followed by that of its value. */
  lemma {:induction false} GlobalLeaf(rd: Reading, h: Symbols.Digest -> seq<byte>, key: Value, v: Value, ty: nat, x: Operations.Data)
    requires Faithful(rd, h) && WellTyped(TYPE_ID, key) && IsKey(key, ty) && WellTyped(DATA, v) && IsData(rd, v, x)
    ensures Join(Enc(TYPE_ID, key), Enc(DATA, v)) == Some(Spelled(Operations.GlobalRecord(ty, x), h))
  {
    hide Enc, WellTyped, IsKey, IsData, Operations.DataRecord, Faithful;
    KeyEncoded(key, ty);
    DataEncoded(rd, h, v, x);
    SpelledConcat(Symbols.LE(ty, 2), Operations.DataRecord(x), h);
    SpelledPlain(LittleEndian(ty, 2), h);
  }

  lemma {:induction false} AmountEncoded(v: Value, n: nat)
    requires WellTyped(AMOUNT, v) && v.body.TupleV? && |v.body.items| == 1 && v.body.items[0].body.UnionV?
    requires v.body.items[0].body.inner.body.TupleV? && |v.body.items[0].body.inner.body.items| == 1
    requires IsNumber(v.body.items[0].body.inner.body.items[0], n)
    ensures Enc(AMOUNT, v) == Some([8] + LittleEndian(n, 8))
  {
    var vs, ts := [Variant("bits64", 8)], [Tuple([Prim(8)])];
    Wrapped(Union(vs, ts), v);
    WrappedEncoded(Union(vs, ts), v);
    var u := v.body.items[0];
    UnionStep(vs, ts, u);
    WrappedEncoded(Prim(8), u.body.inner);
    LongEncoded(u.body.inner.body.items[0], n);
    BitsEncoded(u);
  }

  lemma {:induction false} BitsEncoded(u: Value)
    requires u.body.UnionV? && u.body.tag == 8 && u.body.name == "bits64"
    ensures Enc(Union([Variant("bits64", 8)], [Tuple([Prim(8)])]), u) == Join(Some([8]), Enc(Tuple([Prim(8)]), u.body.inner))
  {
    assert Unwrap(u) == u;
  }

  lemma {:induction false} LongEncoded(v: Value, n: nat)
    requires WellTyped(Prim(8), v) && IsNumber(v, n)
    ensures Enc(Prim(8), v) == Some(LittleEndian(n, 8))
  {
    var raw := RawNumber(8, v.body);
    assert Unwrap(v) == v;
    assert NumberBody(8, raw) == Filled(8, v.body);
    assert FromLittleEndian(raw) == n && |raw| == 8;
    WriteRead(raw);
  }

  lemma {:induction false} StateEncoded(rd: Reading, h: Symbols.Digest -> seq<byte>, kind: Operations.Class, v: Value, s: Operations.State)
    requires Faithful(rd, h) && WellTyped(StateTy(kind), v) && IsState(rd, kind, v, s)
    ensures Enc(StateTy(kind), v) == Some(Spelled(Operations.StateRecord(s), h))
  {
    hide Enc, WellTyped, Faithful, Operations.DataRecord;
    match s
    case Declarative => UnitEncoded(v);
    case Fungible(amount) =>
      AmountEncoded(v, amount);
      SpelledConcat([Symbols.B(8)], Symbols.LE(amount, 8), h);
      SpelledPlain(LittleEndian(amount, 8), h);
      OneByte(8, h);
    case Structured(data) => DataEncoded(rd, h, v, data);
  }

  lemma {:induction false} UnitEncoded(v: Value)
    requires v.body.Unit?
    ensures Enc(Prim(0), v) == Some([])
  {
    assert Unwrap(v) == v;
  }

  lemma {:induction false} OneByte(b: byte, h: Symbols.Digest -> seq<byte>)
    ensures Spelled([Symbols.B(b)], h) == [b]
  {
    assert [Symbols.B(b)][1..] == [];
    assert Spelled([Symbols.B(b)], h) == [b] + Spelled([], h);
  }

  /** The leaf of an assignment is the encodings of its type and of its state, then its secret. */
  lemma {:induction false} AssignmentLeaf(rd: Reading, h: Symbols.Digest -> seq<byte>, key: Value, kind: Operations.Class, state: Value,
                                          ty: nat, a: Operations.Assignment)
    requires Faithful(rd, h) && WellTyped(TYPE_ID, key) && IsKey(key, ty)
    requires WellTyped(StateTy(kind), state) && IsState(rd, kind, state, a.state)
    ensures Join(Join(Enc(TYPE_ID, key), Enc(StateTy(kind), state)), Some(h(Operations.Secret(a)))) ==
            Some(Spelled(Operations.AssignmentRecord(ty, a), h))
  {
    hide Enc, WellTyped, IsKey, IsState, StateTy, Operations.StateRecord, Operations.Secret, Faithful;
    KeyEncoded(key, ty);
    StateEncoded(rd, h, kind, state, a.state);
    var first := Symbols.LE(ty, 2) + Operations.StateRecord(a.state);
    SpelledConcat(first, [Symbols.D(Operations.Secret(a))], h);
    SpelledConcat(Symbols.LE(ty, 2), Operations.StateRecord(a.state), h);
    SpelledPlain(LittleEndian(ty, 2), h);
    SpelledDigest(Operations.Secret(a), h);
  }

  lemma {:induction false} IdOctets(rd: Reading, h: Symbols.Digest -> seq<byte>, v: Value, d: Symbols.Digest)
    requires Faithful(rd, h) && WellTyped(OP_ID, v) && IsDigest(rd, v, d)
    ensures Enc(OP_ID, v) == Some(h(d))
  {
    Wrapped(Array(BYTE, 32), v);
    IdEncoded(v, v.body.items[0].body.raw);
  }

  lemma {:induction false} SpelledFour(a: seq<Symbols.Sym>, b: seq<Symbols.Sym>, mark: byte, d: Symbols.Digest, c: seq<Symbols.Sym>, h: Symbols.Digest -> seq<byte>)
    ensures Spelled(a + b + [Symbols.B(mark), Symbols.D(d)] + c, h) == Spelled(a, h) + Spelled(b, h) + ([mark] + h(d)) + Spelled(c, h)
  {
    var pair := [Symbols.B(mark), Symbols.D(d)];
    SpelledConcat(a + b + pair, c, h);
    SpelledConcat(a + b, pair, h);
    SpelledConcat(a, b, h);
    assert pair == [Symbols.B(mark)] + [Symbols.D(d)];
    SpelledConcat([Symbols.B(mark)], [Symbols.D(d)], h);
    OneByte(mark, h);
    SpelledDigest(d, h);
  }

  /** What an operation id hashes before its commitments are the encodings of version and nonce,
      a byte 1, and the encodings of contract and type, as they were decoded. */
  lemma {:induction false} TransitionHeader(rd: Reading, h: Symbols.Digest -> seq<byte>, v: Value, t: Operations.Transition)
    requires Faithful(rd, h) && WellTyped(TRANSITION, v) && IsTransition(rd, v, t)
    ensures var items := v.body.items;
            Join(Join(Join(Enc(TYPE_ID, items[0]), Enc(Prim(8), items[2])), Join(Some([1]), Enc(OP_ID, items[1]))), Enc(TYPE_ID, items[3])) ==
            Some(Spelled(Symbols.LE(t.ffv, 2) + Symbols.LE(t.nonce, 8) + [Symbols.B(1), Symbols.D(t.contractId)] + Symbols.LE(t.ty, 2), h))
    ensures Operations.TransitionRecord(t) ==
            Symbols.LE(t.ffv, 2) + Symbols.LE(t.nonce, 8) + [Symbols.B(1), Symbols.D(t.contractId)] + Symbols.LE(t.ty, 2)
            + Operations.Roots(t.metadata, t.globals, t.inputs, t.assignments)
  {
    hide WellTyped, Enc, IsKey, IsDigest, IsMetadata, IsGlobals, IsInputs, IsAssignments, IsSignature, AssignmentsTy, Faithful,
         Operations.Roots, LittleEndian, Spelled;
    TransitionParts(v);
    var items := v.body.items;
    KeyEncoded(items[0], t.ffv);
    LongEncoded(items[2], t.nonce);
    IdOctets(rd, h, items[1], t.contractId);
    KeyEncoded(items[3], t.ty);
    SpelledFour(Symbols.LE(t.ffv, 2), Symbols.LE(t.nonce, 8), 1, t.contractId, Symbols.LE(t.ty, 2), h);
    SpelledPlain(LittleEndian(t.ffv, 2), h);
    SpelledPlain(LittleEndian(t.nonce, 8), h);
    SpelledPlain(LittleEndian(t.ty, 2), h);
    hide Symbols.LE;
    var a, b, c, d, e := Symbols.LE(t.ffv, 2), Symbols.LE(t.nonce, 8), [Symbols.B(1), Symbols.D(t.contractId)], Symbols.LE(t.ty, 2),
      Operations.Roots(t.metadata, t.globals, t.inputs, t.assignments);
    assert c + (d + e) == c + d + e;
    assert b + (c + d + e) == b + c + d + e;
    assert a + (b + c + d + e) == a + b + c + d + e;
  }
}
