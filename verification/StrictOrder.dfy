/** The order of canonical collections is a total preorder on the values of a
    type, so a strictly increasing collection holds no value twice. */
module StrictOrder {
  import opened Bytes
  import opened StrictTypes
  import opened StrictCodec
  import opened StrictRoundTrip
  import opened StrictReread
  import opened Wrappers

  function Negated(x: Option<int>): Option<int> {
    if x.Some? then Some(-x.value) else None
  }

  lemma {:induction false} BytesAntisymmetric(a: seq<byte>, b: seq<byte>)
    ensures CompareBytes(b, a) == -CompareBytes(a, b)
  {
    if a != [] && b != [] && a[0] == b[0] {
      BytesAntisymmetric(a[1..], b[1..]);
    }
  }

  /** Swapping the operands negates the answer, and keeps incomparability. */
  lemma {:induction false} Antisymmetric(a: Value, b: Value)
    ensures Compare(b, a) == Negated(Compare(a, b))
    decreases a, b
  {
    if a.body.TupleV? && |a.body.items| == 1 {
      Antisymmetric(a.body.items[0], b);
      TupleRight(b, a);
    } else if b.body.TupleV? && |b.body.items| == 1 {
      Antisymmetric(a, b.body.items[0]);
      TupleRight(a, b);
    } else {
      match (a.body, b.body)
      case (Octets(r), Octets(s)) => BytesAntisymmetric(r, s);
      case (Str(r, _), Str(s, _)) => BytesAntisymmetric(r, s);
      case (UnionV(_, r, x), UnionV(_, s, y)) => Antisymmetric(x, y);
      case (TupleV(xs), TupleV(ys)) => AllAntisymmetric(xs, ys);
      case (ListV(xs), ListV(ys)) => AllAntisymmetric(xs, ys);
      case (SetV(xs), SetV(ys)) => AllAntisymmetric(xs, ys);
      case (MapV(xs), MapV(ys)) => AllAntisymmetric(xs, ys);
      case (StructV(ns, xs), StructV(ms, ys)) => FieldsAntisymmetric(ns, xs, ms, ys);
      case _ =>
    }
  }

  lemma {:induction false} AllAntisymmetric(xs: seq<Value>, ys: seq<Value>)
    ensures CompareAll(ys, xs) == Negated(CompareAll(xs, ys))
    decreases xs, ys
  {
    if xs != [] && ys != [] {
      Antisymmetric(xs[0], ys[0]);
      AllAntisymmetric(xs[1..], ys[1..]);
    }
  }

  lemma {:induction false} FieldsAntisymmetric(ns: seq<string>, xs: seq<Value>, ms: seq<string>, ys: seq<Value>)
    ensures CompareFields(ms, ys, ns, xs) == Negated(CompareFields(ns, xs, ms, ys))
    decreases xs, ys
  {
    if ns != [] && ms != [] && xs != [] && ys != [] && ns[0] == ms[0] {
      Antisymmetric(xs[0], ys[0]);
      FieldsAntisymmetric(ns[1..], xs[1..], ms[1..], ys[1..]);
    }
  }

  /** A value is never below itself. */
  lemma {:induction false} Irreflexive(a: Value)
    ensures !Less(a, a)
    ensures Compare(a, a).Some? ==> Compare(a, a).value == 0
  {
    Antisymmetric(a, a);
  }

  // ----- transitivity

  /** Three answers that compose: not above and not above is not above, and strict
      when one of them is. */
  ghost predicate Chain(x: Option<int>, y: Option<int>, z: Option<int>) {
    x.Some? && y.Some? && x.value <= 0 && y.value <= 0 ==>
      z.Some? && z.value <= 0 && (z.value == 0 <==> x.value == 0 && y.value == 0)
  }

  lemma {:induction false} BytesChain(a: seq<byte>, b: seq<byte>, c: seq<byte>)
    ensures Chain(Some(CompareBytes(a, b)), Some(CompareBytes(b, c)), Some(CompareBytes(a, c)))
  {
    if a != [] && b != [] && c != [] && a[0] == b[0] == c[0] {
      BytesChain(a[1..], b[1..], c[1..]);
    }
  }

  ghost predicate PointwiseChain(xs: seq<Value>, ys: seq<Value>, zs: seq<Value>) {
    forall i :: 0 <= i < |xs| && i < |ys| && i < |zs| ==> ChainAt(xs, ys, zs, i)
  }

  ghost predicate ChainAt(xs: seq<Value>, ys: seq<Value>, zs: seq<Value>, i: nat)
    requires i < |xs| && i < |ys| && i < |zs|
  {
    Chain(Compare(xs[i], ys[i]), Compare(ys[i], zs[i]), Compare(xs[i], zs[i]))
  }

  lemma {:induction false} PointwiseTail(xs: seq<Value>, ys: seq<Value>, zs: seq<Value>)
    requires xs != [] && ys != [] && zs != [] && PointwiseChain(xs, ys, zs)
    ensures PointwiseChain(xs[1..], ys[1..], zs[1..])
  {
    forall i | 0 <= i < |xs| - 1 && i < |ys| - 1 && i < |zs| - 1 ensures ChainAt(xs[1..], ys[1..], zs[1..], i) {
      assert ChainAt(xs, ys, zs, i + 1);
    }
  }

  lemma {:induction false} AllChain(xs: seq<Value>, ys: seq<Value>, zs: seq<Value>)
    requires PointwiseChain(xs, ys, zs)
    ensures Chain(CompareAll(xs, ys), CompareAll(ys, zs), CompareAll(xs, zs))
    decreases |xs|
  {
    if xs != [] && ys != [] && zs != [] {
      assert ChainAt(xs, ys, zs, 0);
      PointwiseTail(xs, ys, zs);
      AllChain(xs[1..], ys[1..], zs[1..]);
    }
  }

  lemma {:induction false} FieldsChain(ns: seq<string>, xs: seq<Value>, ys: seq<Value>, zs: seq<Value>)
    requires |ns| == |xs| == |ys| == |zs| && PointwiseChain(xs, ys, zs)
    ensures Chain(CompareFields(ns, xs, ns, ys), CompareFields(ns, ys, ns, zs), CompareFields(ns, xs, ns, zs))
    decreases |xs|
  {
    if ns != [] {
      assert ChainAt(xs, ys, zs, 0);
      PointwiseTail(xs, ys, zs);
      FieldsChain(ns[1..], xs[1..], ys[1..], zs[1..]);
    }
  }

  /** Values of one type compose. */
  ghost predicate Composes(a: Value, b: Value, c: Value) {
    Chain(Compare(a, b), Compare(b, c), Compare(a, c))
  }

  lemma {:induction false} Transitive(t: Ty, a: Value, b: Value, c: Value)
    requires WellTyped(t, a) && WellTyped(t, b) && WellTyped(t, c)
    ensures Composes(a, b, c)
    decreases Depth(t), 0, 1
  {
    if Collection(t) {
      CollectionTransitive(t, a, b, c);
    } else if t.Tuple? && Restricted(t.tys).None? {
      TupleTransitive(t.tys, a, b, c);
    } else if t.Struct? {
      StructTransitive(t.names, t.tys, a, b, c);
    } else if t.Union? {
      UnionTransitive(t.variants, t.tys, a, b, c);
    } else {
      LeafTransitive(t, a, b, c);
    }
  }

  /** What the comparison sees of a leaf. */
  lemma {:induction false} LeafShapes(t: Ty, a: Value)
    requires Leaf(t) && WellTyped(t, a)
    ensures a.body.Unit? || a.body.Number? || a.body.Octets? || a.body.Str? || a.body.EnumV?
    ensures a.body.Number? <==> t.Prim? && t.code != 0
    ensures a.body.Unit? <==> t == Prim(0)
    ensures a.body.EnumV? <==> t.Enum?
    ensures a.body.Octets? <==> (t.Array? || (t.List? && t.elem == BYTE))
  {
  }

  lemma {:induction false} NumberShape(code: byte, a: Body)
    requires WellTypedNumber(code, a)
    ensures a.prim == code
    ensures a.unsigned.Some? <==> PrimitiveSize(code) <= 8 && (Class(code) == 0 || Class(code) == 0x80)
    ensures a.signed.Some? <==> PrimitiveSize(code) <= 8 && Class(code) == 0x40
    ensures a.unsigned.None? && a.signed.None? ==> |a.raw| == PrimitiveSize(code)
  {
  }

  lemma {:induction false} LeafTransitive(t: Ty, a: Value, b: Value, c: Value)
    requires Leaf(t) && WellTyped(t, a) && WellTyped(t, b) && WellTyped(t, c)
    ensures Composes(a, b, c)
  {
    hide LittleEndianInt, FromLittleEndian, PrimitiveSize, StrictTypes.Class, RestrictedText, Restricted, FlatContent, CompareBytes;
    LeafShapes(t, a);
    LeafShapes(t, b);
    LeafShapes(t, c);
    if a.body.Number? {
      NumberShape(t.code, a.body);
      NumberShape(t.code, b.body);
      NumberShape(t.code, c.body);
    } else if a.body.Octets? {
      BytesChain(a.body.raw, b.body.raw, c.body.raw);
    } else if a.body.Str? {
      BytesChain(a.body.text, b.body.text, c.body.text);
    }
  }

  lemma {:induction false} ItemsTransitive(ts: seq<Ty>, us: seq<Ty>, ws: seq<Ty>, xs: seq<Value>, ys: seq<Value>, zs: seq<Value>)
    requires |ts| == |xs| && |us| == |ys| && |ws| == |zs| && Aligned(ts, us) && Aligned(ts, ws)
    requires WellTypedAll(ts, xs) && WellTypedAll(us, ys) && WellTypedAll(ws, zs)
    ensures PointwiseChain(xs, ys, zs)
    decreases DepthAll(ts), 1, 0
  {
    forall i | 0 <= i < |xs| && i < |ys| && i < |zs| ensures ChainAt(xs, ys, zs, i) {
      WellTypedAt(ts, xs, i);
      WellTypedAt(us, ys, i);
      WellTypedAt(ws, zs, i);
      assert us[i] == ts[i] && ws[i] == ts[i];
      Transitive(ts[i], xs[i], ys[i], zs[i]);
    }
  }

  lemma {:induction false} CompareCollection(t: Ty, a: Value, b: Value)
    requires KindOf(t, a.body) && KindOf(t, b.body)
    ensures Compare(a, b) == if t.Map? && |ItemsOf(a)| != |ItemsOf(b)| then Some(CompareNat(|ItemsOf(a)|, |ItemsOf(b)|))
                             else CompareAll(ItemsOf(a), ItemsOf(b))
  {
  }

  lemma {:induction false} CollectionTransitive(t: Ty, a: Value, b: Value, c: Value)
    requires Collection(t) && WellTyped(t, a) && WellTyped(t, b) && WellTyped(t, c)
    ensures Composes(a, b, c)
    decreases Depth(t), 0, 0
  {
    StampCollection(t, a);
    StampCollection(t, b);
    StampCollection(t, c);
    var xs, ys, zs := ItemsOf(a), ItemsOf(b), ItemsOf(c);
    ItemTypesAligned(t, |xs|, |ys|);
    ItemTypesAligned(t, |xs|, |zs|);
    ItemTypesDepth(t, |xs|);
    ItemsTransitive(ItemTypes(t, |xs|), ItemTypes(t, |ys|), ItemTypes(t, |zs|), xs, ys, zs);
    AllChain(xs, ys, zs);
    CompareCollection(t, a, b);
    CompareCollection(t, b, c);
    CompareCollection(t, a, c);
  }

  lemma {:induction false} TupleTransitive(ts: seq<Ty>, a: Value, b: Value, c: Value)
    requires Restricted(ts).None? && WellTyped(Tuple(ts), a) && WellTyped(Tuple(ts), b) && WellTyped(Tuple(ts), c)
    ensures Composes(a, b, c)
    decreases Depth(Tuple(ts)), 0, 0
  {
    StampTuple(ts, a);
    StampTuple(ts, b);
    StampTuple(ts, c);
    var xs, ys, zs := a.body.items, b.body.items, c.body.items;
    ItemsTransitive(ts, ts, ts, xs, ys, zs);
    AllChain(xs, ys, zs);
    CompareTuple(a, b);
    CompareTuple(b, c);
    CompareTuple(a, c);
    if |ts| == 1 { assert ChainAt(xs, ys, zs, 0); }
  }

  lemma {:induction false} CompareTuple(a: Value, b: Value)
    requires a.body.TupleV? && b.body.TupleV? && |a.body.items| == |b.body.items|
    ensures Compare(a, b) == if |a.body.items| == 1 then Compare(a.body.items[0], b.body.items[0])
                             else CompareAll(a.body.items, b.body.items)
  {
    if |a.body.items| == 1 {
      TupleRight(a.body.items[0], b);
    }
  }

  lemma {:induction false} StructTransitive(names: seq<string>, ts: seq<Ty>, a: Value, b: Value, c: Value)
    requires WellTyped(Struct(names, ts), a) && WellTyped(Struct(names, ts), b) && WellTyped(Struct(names, ts), c)
    ensures Composes(a, b, c)
    decreases Depth(Struct(names, ts)), 0, 0
  {
    StampStruct(names, ts, a);
    StampStruct(names, ts, b);
    StampStruct(names, ts, c);
    var xs, ys, zs := a.body.items, b.body.items, c.body.items;
    ItemsTransitive(ts, ts, ts, xs, ys, zs);
    FieldsChain(names, xs, ys, zs);
    CompareStruct(names, a, b);
    CompareStruct(names, b, c);
    CompareStruct(names, a, c);
  }

  lemma {:induction false} UnionTransitive(vs: seq<Variant>, tys: seq<Ty>, a: Value, b: Value, c: Value)
    requires WellTyped(Union(vs, tys), a) && WellTyped(Union(vs, tys), b) && WellTyped(Union(vs, tys), c)
    ensures Composes(a, b, c)
    decreases Depth(Union(vs, tys)), 0, 0
  {
    StampUnion(vs, tys, a);
    StampUnion(vs, tys, b);
    StampUnion(vs, tys, c);
    if a.body.tag == b.body.tag == c.body.tag {
      Transitive(tys[FindTag(vs, a.body.tag).value], a.body.inner, b.body.inner, c.body.inner);
    }
    CompareUnion(a, b);
    CompareUnion(b, c);
    CompareUnion(a, c);
  }

  lemma {:induction false} CompareUnion(a: Value, b: Value)
    requires a.body.UnionV? && b.body.UnionV?
    ensures Compare(a, b) == if a.body.tag != b.body.tag then Some(CompareNat(a.body.tag, b.body.tag))
                             else Compare(a.body.inner, b.body.inner)
  {
  }

  // ----- totality

  /** No struct of `name` and `tag` that is reached when comparing has a tag without a
      number of at most eight bytes: such a struct is ordered by its tag alone. */
  predicate Sortable(v: Value)
    decreases v
  {
    match v.body
    case UnionV(_, _, inner) => Sortable(inner)
    case TupleV(xs) => SortableAll(xs)
    case StructV(names, xs) => if NameTag(names) && |xs| == 2 then Uint64(xs[1]).Some? else SortableFields(names, xs)
    case ListV(xs) => SortableAll(xs)
    case SetV(xs) => SortableAll(xs)
    case MapV(xs) => SortableAll(xs)
    case _ => true
  }

  predicate SortableAll(xs: seq<Value>)
    decreases xs
  {
    xs == [] || (Sortable(xs[0]) && SortableAll(xs[1..]))
  }

  predicate SortableFields(names: seq<string>, xs: seq<Value>)
    decreases xs
  {
    names == [] || xs == [] || (Sortable(xs[0]) && SortableFields(names[1..], xs[1..]))
  }

  lemma {:induction false} FieldsAreAll(names: seq<string>, xs: seq<Value>)
    requires |names| == |xs|
    ensures SortableFields(names, xs) <==> SortableAll(xs)
  {
    if xs != [] { FieldsAreAll(names[1..], xs[1..]); }
  }

  lemma {:induction false} SortableAt(xs: seq<Value>, i: nat)
    requires SortableAll(xs) && i < |xs|
    ensures Sortable(xs[i])
  {
    if i > 0 { SortableAt(xs[1..], i - 1); }
  }

  lemma {:induction false} AllTotal(xs: seq<Value>, ys: seq<Value>)
    requires forall i :: 0 <= i < |xs| && i < |ys| ==> Compare(xs[i], ys[i]).Some?
    ensures CompareAll(xs, ys).Some?
    decreases |xs|
  {
    if xs != [] && ys != [] {
      assert Compare(xs[0], ys[0]).Some?;
      AllTotal(xs[1..], ys[1..]);
    }
  }

  lemma {:induction false} FieldsTotal(ns: seq<string>, xs: seq<Value>, ys: seq<Value>)
    requires |ns| == |xs| == |ys|
    requires forall i :: 0 <= i < |xs| ==> Compare(xs[i], ys[i]).Some?
    ensures CompareFields(ns, xs, ns, ys).Some?
    decreases |xs|
  {
    if ns != [] {
      assert Compare(xs[0], ys[0]).Some?;
      FieldsTotal(ns[1..], xs[1..], ys[1..]);
    }
  }

  lemma {:induction false} ItemsTotal(ts: seq<Ty>, us: seq<Ty>, xs: seq<Value>, ys: seq<Value>)
    requires |ts| == |xs| && |us| == |ys| && Aligned(ts, us) && WellTypedAll(ts, xs) && WellTypedAll(us, ys)
    requires SortableAll(xs) && SortableAll(ys)
    ensures forall i :: 0 <= i < |xs| && i < |ys| ==> Compare(xs[i], ys[i]).Some?
    decreases DepthAll(ts), 1, 0
  {
    forall i | 0 <= i < |xs| && i < |ys| ensures Compare(xs[i], ys[i]).Some? {
      WellTypedAt(ts, xs, i);
      WellTypedAt(us, ys, i);
      assert us[i] == ts[i];
      SortableAt(xs, i);
      SortableAt(ys, i);
      Total(ts[i], xs[i], ys[i]);
    }
  }

  /** Any two sortable values of one type are comparable. */
  lemma {:induction false} Total(t: Ty, a: Value, b: Value)
    requires WellTyped(t, a) && WellTyped(t, b) && Sortable(a) && Sortable(b)
    ensures Compare(a, b).Some?
    decreases Depth(t), 0, 1
  {
    if Collection(t) {
      CollectionTotal(t, a, b);
    } else if t.Tuple? && Restricted(t.tys).None? {
      TupleTotal(t.tys, a, b);
    } else if t.Struct? {
      StructTotal(t.names, t.tys, a, b);
    } else if t.Union? {
      UnionTotal(t.variants, t.tys, a, b);
    } else {
      LeafShapes(t, a);
      LeafShapes(t, b);
      LeafTotal(t, a, b);
    }
  }

  lemma {:induction false} LeafTotal(t: Ty, a: Value, b: Value)
    requires Leaf(t) && WellTyped(t, a) && WellTyped(t, b)
    ensures Compare(a, b).Some?
  {
    LeafShapes(t, a);
    LeafShapes(t, b);
    if a.body.Number? {
      NumberShape(t.code, a.body);
      NumberShape(t.code, b.body);
    }
  }

  lemma {:induction false} CollectionTotal(t: Ty, a: Value, b: Value)
    requires Collection(t) && WellTyped(t, a) && WellTyped(t, b) && Sortable(a) && Sortable(b)
    ensures Compare(a, b).Some?
    decreases Depth(t), 0, 0
  {
    StampCollection(t, a);
    StampCollection(t, b);
    var xs, ys := ItemsOf(a), ItemsOf(b);
    ItemTypesAligned(t, |xs|, |ys|);
    ItemTypesDepth(t, |xs|);
    ItemsTotal(ItemTypes(t, |xs|), ItemTypes(t, |ys|), xs, ys);
    AllTotal(xs, ys);
    CompareCollection(t, a, b);
  }

  lemma {:induction false} TupleTotal(ts: seq<Ty>, a: Value, b: Value)
    requires Restricted(ts).None? && WellTyped(Tuple(ts), a) && WellTyped(Tuple(ts), b) && Sortable(a) && Sortable(b)
    ensures Compare(a, b).Some?
    decreases Depth(Tuple(ts)), 0, 0
  {
    StampTuple(ts, a);
    StampTuple(ts, b);
    ItemsTotal(ts, ts, a.body.items, b.body.items);
    AllTotal(a.body.items, b.body.items);
    CompareTuple(a, b);
  }

  lemma {:induction false} StructTotal(names: seq<string>, ts: seq<Ty>, a: Value, b: Value)
    requires WellTyped(Struct(names, ts), a) && WellTyped(Struct(names, ts), b) && Sortable(a) && Sortable(b)
    ensures Compare(a, b).Some?
    decreases Depth(Struct(names, ts)), 0, 0
  {
    StampStruct(names, ts, a);
    StampStruct(names, ts, b);
    CompareStruct(names, a, b);
    if !NameTag(names) {
      FieldsAreAll(names, a.body.items);
      FieldsAreAll(names, b.body.items);
      ItemsTotal(ts, ts, a.body.items, b.body.items);
      FieldsTotal(names, a.body.items, b.body.items);
    }
  }

  lemma {:induction false} UnionTotal(vs: seq<Variant>, tys: seq<Ty>, a: Value, b: Value)
    requires WellTyped(Union(vs, tys), a) && WellTyped(Union(vs, tys), b) && Sortable(a) && Sortable(b)
    ensures Compare(a, b).Some?
    decreases Depth(Union(vs, tys)), 0, 0
  {
    StampUnion(vs, tys, a);
    StampUnion(vs, tys, b);
    CompareUnion(a, b);
    if a.body.tag == b.body.tag {
      Total(tys[FindTag(vs, a.body.tag).value], a.body.inner, b.body.inner);
    }
  }

  // ----- what is not sortable is not even comparable with itself

  lemma {:induction false} AllSelf(xs: seq<Value>)
    requires CompareAll(xs, xs).Some?
    ensures SortableAll(xs)
    decreases xs
  {
    if xs != [] {
      SelfIsEqual(xs[0]);
      OnlySortable(xs[0]);
      AllSelf(xs[1..]);
    }
  }

  lemma {:induction false} FieldsSelf(ns: seq<string>, xs: seq<Value>)
    requires CompareFields(ns, xs, ns, xs).Some?
    ensures SortableFields(ns, xs)
    decreases xs
  {
    if ns != [] && xs != [] {
      SelfIsEqual(xs[0]);
      OnlySortable(xs[0]);
      FieldsSelf(ns[1..], xs[1..]);
    }
  }

  lemma {:induction false} SelfIsEqual(v: Value)
    ensures Compare(v, v).Some? ==> Compare(v, v) == Some(0)
  {
    hide Compare;
    Antisymmetric(v, v);
  }

  lemma {:induction false} OnlySortable(v: Value)
    requires Compare(v, v).Some?
    ensures Sortable(v)
    decreases v
  {
    if v.body.TupleV? && |v.body.items| == 1 {
      TupleRight(v.body.items[0], v);
      OnlySortable(v.body.items[0]);
    } else {
      match v.body
      case UnionV(_, _, inner) => OnlySortable(inner);
      case TupleV(xs) => AllSelf(xs);
      case ListV(xs) => AllSelf(xs);
      case SetV(xs) => AllSelf(xs);
      case MapV(xs) => AllSelf(xs);
      case StructV(names, xs) => if !NameTag(names) || |xs| != 2 { FieldsSelf(names, xs); }
      case _ =>
    }
  }

  /** A well-typed value is comparable with itself exactly when it is sortable, and
      then it is comparable with every sortable value of its type. */
  lemma {:induction false} ComparableWithItself(t: Ty, v: Value)
    requires WellTyped(t, v)
    ensures Compare(v, v).Some? <==> Sortable(v)
  {
    hide WellTyped, Sortable, Compare;
    if Compare(v, v).Some? { OnlySortable(v); }
    if Sortable(v) { Total(t, v, v); }
  }

  // ----- which types are affected

  /** Every struct of `name` and `tag` in the type has a number of at most eight bytes as its tag. */
  predicate Comparable(t: Ty)
    decreases Depth(t), 0
  {
    match t
    case Union(_, tys) => ComparableAll(tys)
    case Tuple(tys) => ComparableAll(tys)
    case Struct(names, tys) => if NameTag(names) && |tys| == 2 then UnsignedPrim(tys[1]) else ComparableAll(tys)
    case Array(e, _) => Comparable(e)
    case List(e, _, _) => Comparable(e)
    case Set(e, _, _) => Comparable(e)
    case Map(k, v, _, _) => Comparable(k) && Comparable(v)
    case _ => true
  }

  predicate ComparableAll(ts: seq<Ty>)
    decreases DepthAll(ts), |ts| + 1
  {
    ts == [] || (Comparable(ts[0]) && ComparableAll(ts[1..]))
  }

  predicate UnsignedPrim(t: Ty) {
    t.Prim? && t.code != 0 && PrimitiveSize(t.code) <= 8 && (Class(t.code) == 0 || Class(t.code) == 0x80)
  }

  lemma {:induction false} ComparableAt(ts: seq<Ty>, i: nat)
    requires ComparableAll(ts) && i < |ts|
    ensures Comparable(ts[i])
  {
    if i > 0 { ComparableAt(ts[1..], i - 1); }
  }

  lemma {:induction false} SortableEach(xs: seq<Value>)
    requires forall i :: 0 <= i < |xs| ==> Sortable(xs[i])
    ensures SortableAll(xs)
  {
    if xs != [] {
      assert Sortable(xs[0]);
      assert forall i :: 0 <= i < |xs[1..]| ==> xs[1..][i] == xs[i + 1];
      SortableEach(xs[1..]);
    }
  }

  lemma {:induction false} ItemsSortable(ts: seq<Ty>, xs: seq<Value>)
    requires |ts| == |xs| && WellTypedAll(ts, xs) && forall i :: 0 <= i < |ts| ==> Comparable(ts[i])
    ensures SortableAll(xs)
    decreases DepthAll(ts), 2
  {
    forall i | 0 <= i < |xs| ensures Sortable(xs[i]) {
      WellTypedAt(ts, xs, i);
      TypeSortable(ts[i], xs[i]);
    }
    SortableEach(xs);
  }

  lemma {:induction false} CollectionSortable(t: Ty, v: Value)
    requires Collection(t) && Comparable(t) && WellTyped(t, v)
    ensures Sortable(v)
    decreases Depth(t), 0
  {
    StampCollection(t, v);
    var n := |ItemsOf(v)|;
    ItemTypesDepth(t, n);
    forall i | 0 <= i < |ItemTypes(t, n)| ensures Comparable(ItemTypes(t, n)[i]) {
      if t.Map? { PairsAt(t.key, t.val, n / 2, i); }
    }
    ItemsSortable(ItemTypes(t, n), ItemsOf(v));
  }

  /** All values of a comparable type are sortable, hence any two are comparable. */
  lemma {:induction false} TypeSortable(t: Ty, v: Value)
    requires Comparable(t) && WellTyped(t, v)
    ensures Sortable(v)
    decreases Depth(t), 1
  {
    if Collection(t) {
      CollectionSortable(t, v);
    } else if t.Tuple? && Restricted(t.tys).None? {
      StampTuple(t.tys, v);
      forall i | 0 <= i < |t.tys| ensures Comparable(t.tys[i]) { ComparableAt(t.tys, i); }
      ItemsSortable(t.tys, v.body.items);
    } else if t.Struct? {
      StructSortable(t.names, t.tys, v);
    } else if t.Union? {
      StampUnion(t.variants, t.tys, v);
      ComparableAt(t.tys, FindTag(t.variants, v.body.tag).value);
      TypeSortable(t.tys[FindTag(t.variants, v.body.tag).value], v.body.inner);
    } else {
      LeafShapes(t, v);
    }
  }

  lemma {:induction false} StructSortable(names: seq<string>, ts: seq<Ty>, v: Value)
    requires Comparable(Struct(names, ts)) && WellTyped(Struct(names, ts), v)
    ensures Sortable(v)
    decreases Depth(Struct(names, ts)), 0
  {
    StampStruct(names, ts, v);
    if NameTag(names) {
      WellTypedAt(ts, v.body.items, 1);
      NumberShape(ts[1].code, v.body.items[1].body);
    } else {
      forall i | 0 <= i < |ts| ensures Comparable(ts[i]) { ComparableAt(ts, i); }
      ItemsSortable(ts, v.body.items);
      FieldsAreAll(names, v.body.items);
    }
  }

  /** A value of a type is a number the comparison can read exactly when the type is a
      primitive one of at most eight unsigned bytes. */
  lemma {:induction false} ReadsNumber(t: Ty, v: Value)
    requires WellTyped(t, v)
    ensures Uint64(v).Some? <==> UnsignedPrim(t)
  {
    hide PrimitiveSize, StrictTypes.Class, NumberBody;
    if t.Prim? {
      if t.code != 0 { NumberShape(t.code, v.body); }
    }
  }

  /** Structs of `name` and `tag` over any other tag compare with nothing, not even with themselves. */
  lemma {:induction false} Incomparable(names: seq<string>, ts: seq<Ty>, a: Value, b: Value)
    requires NameTag(names) && |ts| == 2 && !UnsignedPrim(ts[1])
    requires WellTyped(Struct(names, ts), a) && WellTyped(Struct(names, ts), b)
    ensures Compare(a, b) == None
  {
    StampStruct(names, ts, a);
    StampStruct(names, ts, b);
    CompareStruct(names, a, b);
    WellTypedAt(ts, a.body.items, 1);
    ReadsNumber(ts[1], a.body.items[1]);
  }

  /** So a set of them, or a map with them as keys, holds at most one. */
  lemma {:induction false} AtMostOne(names: seq<string>, ts: seq<Ty>, items: seq<Value>)
    requires NameTag(names) && |ts| == 2 && !UnsignedPrim(ts[1])
    requires forall k :: 0 <= k < |items| ==> WellTyped(Struct(names, ts), items[k])
    ensures Increasing(items) <==> |items| <= 1
  {
    hide WellTyped, Compare;
    if |items| > 1 {
      Incomparable(names, ts, items[0], items[1]);
      assert !Less(items[1 - 1], items[1]);
    }
  }

  /** Such a set with more than one item is never decoded, in whatever order it is sent. */
  lemma {:induction false} MoreRefused(names: seq<string>, ts: seq<Ty>, min: u64, max: u64, d: seq<byte>)
    requires NameTag(names) && |ts| == 2 && !UnsignedPrim(ts[1])
    requires ReadLength(d, max).Some? && ReadLength(d, max).value.0 > 1
    ensures Dec(Set(Struct(names, ts), min, max), d).None?
  {
    hide ReadLength, WellTyped, Increasing;
    var e, n, body := Struct(names, ts), ReadLength(d, max).value.0, ReadLength(d, max).value.1;
    var all := Copies(e, n);
    DecodedEncodesAll(all, body);
    if DecAll(all, body).Some? {
      var vs := DecAll(all, body).value.0;
      forall k | 0 <= k < n ensures WellTyped(e, vs[k]) { WellTypedAt(all, vs, k); }
      AtMostOne(names, ts, vs);
    }
  }

  /** Signed tags, for example: either struct is decoded, the set of both is not. */
  lemma {:induction false} SignedTags()
    ensures var e := Struct(["name", "tag"], [Prim(1), Prim(0x41)]);
            Dec(Set(e, 0, 0xff), [2, 1, 1, 2, 2]).None? && Dec(e, [1, 1]).Some? && Dec(e, [2, 2]).Some?
  {
    hide Dec, ReadLength;
    TwoAnnounced();
    MoreRefused(["name", "tag"], [Prim(1), Prim(0x41)], 0, 0xff, [2, 1, 1, 2, 2]);
    TwoBytes(1);
    TwoBytes(2);
  }

  lemma {:induction false} TwoAnnounced()
    ensures ReadLength([2, 1, 1, 2, 2], 0xff).Some? && ReadLength([2, 1, 1, 2, 2], 0xff).value.0 == 2
  {
    var d: seq<byte> := [2, 1, 1, 2, 2];
    assert d[..1] == [2] && FromLittleEndian([2]) == 2;
  }

  lemma {:induction false} TwoBytes(b: byte)
    requires b != 0
    ensures Dec(Struct(["name", "tag"], [Prim(1), Prim(0x41)]), [b, b]).Some?
  {
    hide NumberBody;
    var d: seq<byte> := [b, b];
    var ts := [Prim(1), Prim(0x41)];
    assert d[..1] == [b] && d[1..] == [b];
    assert Dec(ts[0], d).Some? && Dec(ts[0], d).value.1 == [b];
    assert ts[1..] == [Prim(0x41)] && Dec(Prim(0x41), [b]).Some?;
    assert DecAll(ts[1..], [b]).Some?;
  }

  // ----- canonical collections hold no value twice

  /** In an increasing list, any earlier item is below any later one. */
  lemma {:induction false} IncreasingEverywhere(e: Ty, items: seq<Value>, i: nat, j: nat)
    requires (forall k :: 0 <= k < |items| ==> WellTyped(e, items[k])) && Increasing(items)
    requires i < j < |items|
    ensures Less(items[i], items[j])
    decreases j - i
  {
    hide WellTyped, Compare;
    assert Less(items[j - 1], items[j]);
    if i < j - 1 {
      IncreasingEverywhere(e, items, i, j - 1);
      Transitive(e, items[i], items[j - 1], items[j]);
    }
  }

  /** Two values of one type with one encoding compare as equal, or not at all. */
  lemma {:induction false} SameEncodingNotLess(e: Ty, a: Value, b: Value)
    requires WellTyped(e, a) && WellTyped(e, b) && Enc(e, a) == Enc(e, b)
    ensures !Less(a, b)
  {
    EncodedDecodes(e, a, []);
    EncodedDecodes(e, b, []);
    assert Stamp(e, a) == Stamp(e, b);
    StampKeepsOrder(e, a, b);
    Irreflexive(Stamp(e, a));
  }

  /** Adjacent strict increase already makes all items distinct, and their encodings too. */
  lemma {:induction false} NoItemTwice(e: Ty, items: seq<Value>, i: nat, j: nat)
    requires (forall k :: 0 <= k < |items| ==> WellTyped(e, items[k])) && Increasing(items)
    requires i < j < |items|
    ensures items[i] != items[j] && Enc(e, items[i]) != Enc(e, items[j])
  {
    IncreasingEverywhere(e, items, i, j);
    Irreflexive(items[i]);
    if Enc(e, items[i]) == Enc(e, items[j]) {
      SameEncodingNotLess(e, items[i], items[j]);
    }
  }
}
