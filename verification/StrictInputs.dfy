/** What canonical decoding guarantees to validation: the inputs of a transition
    and the keys of an input map are pairwise different output references. */
module StrictInputs {
  import opened Bytes
  import opened StrictTypes
  import opened StrictCodec
  import opened StrictRoundTrip
  import opened StrictOrder
  import opened Wrappers

  const OP_ID: Ty := Tuple([Array(BYTE, 32)])
  const NAMES: seq<string> := ["op", "ty", "no"]
  const FIELDS: seq<Ty> := [OP_ID, Tuple([Prim(2)]), Prim(2)]

  /** An output reference: operation id, assignment type and index. */
  const OPOUT: Ty := Struct(NAMES, FIELDS)

  const INPUTS: Ty := Set(OPOUT, 1, 0xffff)
  const INPUT_MAP: Ty := Map(OPOUT, OP_ID, 1, 0xffff)

  datatype Ref = Ref(op: seq<byte>, ty: nat, no: nat)

  function Field(names: seq<string>, items: seq<Value>, name: string): Option<Value> {
    if names == [] || items == [] then None
    else if names[0] == name then Some(items[0])
    else Field(names[1..], items[1..], name)
  }

  function FieldOf(v: Value, name: string): Option<Value> {
    if v.body.StructV? then Field(v.body.names, v.body.items, name) else None
  }

  function BytesOf(v: Option<Value>): Option<seq<byte>> {
    if v.Some? && Unwrap(v.value).body.Octets? then Some(Unwrap(v.value).body.raw) else None
  }

  function NumberOf(v: Option<Value>): Option<nat> {
    if v.Some? then Uint64(Unwrap(v.value)) else None
  }

  /** The reference read from a decoded item. */
  function ReadRef(item: Value): Option<Ref> {
    var v := Unwrap(item);
    var op, ty, no := BytesOf(FieldOf(v, "op")), NumberOf(FieldOf(v, "ty")), NumberOf(FieldOf(v, "no"));
    if op.None? || |op.value| != 32 || ty.None? || no.None? || no.value >= U16 then None
    else Some(Ref(op.value, ty.value, no.value))
  }

  /** A decoded two-byte number, bare. */
  ghost predicate Short(v: Value, n: nat) {
    v.body.Number? && v.body.unsigned == Some(n) && n < U16
  }

  lemma {:induction false} ShortNumber(v: Value)
    requires WellTyped(Prim(2), v)
    ensures v.body.Number? && v.body.unsigned.Some? && Short(v, v.body.unsigned.value)
  {
    Pow256Widths();
  }

  lemma {:induction false} Wrapped(t: Ty, v: Value)
    requires WellTyped(Tuple([t]), v)
    ensures v.body.TupleV? && |v.body.items| == 1 && WellTyped(t, v.body.items[0])
  {
    assert Restricted([t]).None?;
    assert [t][0] == t;
  }

  /** The shape of a decoded output reference. */
  lemma {:induction false} OpoutShape(v: Value)
    requires WellTyped(OPOUT, v)
    ensures v.body.StructV? && v.body.names == NAMES && |v.body.items| == 3
    ensures WellTyped(OP_ID, v.body.items[0]) && WellTyped(Tuple([Prim(2)]), v.body.items[1]) && WellTyped(Prim(2), v.body.items[2])
  {
    WellTypedAt(FIELDS, v.body.items, 0);
    WellTypedAt(FIELDS, v.body.items, 1);
    WellTypedAt(FIELDS, v.body.items, 2);
  }

  /** The parts of a decoded output reference. */
  ghost predicate Parts(v: Value, r: Ref) {
    && v.body.StructV? && v.body.names == NAMES && |v.body.items| == 3
    && var op, ty, no := v.body.items[0], v.body.items[1], v.body.items[2];
       && op.body.TupleV? && |op.body.items| == 1 && op.body.items[0].body == Octets(r.op) && |r.op| == 32
       && ty.body.TupleV? && |ty.body.items| == 1 && Short(ty.body.items[0], r.ty)
       && Short(no, r.no)
  }

  lemma {:induction false} OpoutParts(v: Value) returns (r: Ref)
    requires WellTyped(OPOUT, v)
    ensures Parts(v, r)
  {
    OpoutShape(v);
    var op, ty, no := v.body.items[0], v.body.items[1], v.body.items[2];
    Wrapped(Array(BYTE, 32), op);
    Wrapped(Prim(2), ty);
    ShortNumber(ty.body.items[0]);
    ShortNumber(no);
    r := Ref(op.body.items[0].body.raw, ty.body.items[0].body.unsigned.value, no.body.unsigned.value);
  }

  lemma {:induction false} FieldAt(names: seq<string>, items: seq<Value>, name: string)
    requires names != [] && items != []
    ensures Field(names, items, name) == if names[0] == name then Some(items[0]) else Field(names[1..], items[1..], name)
  {
  }

  lemma {:induction false} FieldsRead(v: Value)
    requires v.body.StructV? && v.body.names == NAMES && |v.body.items| == 3
    ensures FieldOf(v, "op") == Some(v.body.items[0])
    ensures FieldOf(v, "ty") == Some(v.body.items[1])
    ensures FieldOf(v, "no") == Some(v.body.items[2])
  {
    var n, i := NAMES, v.body.items;
    assert n[1..] == ["ty", "no"] && n[1..][1..] == ["no"];
    assert "op"[0] != "ty"[0] && "op"[0] != "no"[0] && "ty"[0] != "no"[0];
    FieldAt(n, i, "op");
    FieldAt(n, i, "ty");
    FieldAt(n[1..], i[1..], "ty");
    FieldAt(n, i, "no");
    FieldAt(n[1..], i[1..], "no");
    FieldAt(n[1..][1..], i[1..][1..], "no");
  }

  lemma {:induction false} UnwrapOne(v: Value)
    requires v.body.TupleV? && |v.body.items| == 1 && !v.body.items[0].body.TupleV?
    ensures Unwrap(v) == v.body.items[0]
  {
    assert Unwrap(v) == Unwrap(v.body.items[0]);
  }

  lemma {:induction false} PartsRead(v: Value, r: Ref)
    requires Parts(v, r)
    ensures ReadRef(v) == Some(r)
  {
    hide FieldOf;
    FieldsRead(v);
    UnwrapOne(v.body.items[0]);
    UnwrapOne(v.body.items[1]);
    assert Unwrap(v) == v && Unwrap(v.body.items[2]) == v.body.items[2];
  }

  lemma {:induction false} SameBytes(a: seq<byte>)
    ensures CompareBytes(a, a) == 0
  {
    if a != [] { SameBytes(a[1..]); }
  }

  lemma {:induction false} CompareShort(a: Value, b: Value, n: nat)
    requires Short(a, n) && Short(b, n)
    ensures Compare(a, b) == Some(0)
  {
  }

  lemma {:induction false} CompareOctets(a: Value, b: Value, raw: seq<byte>)
    requires a.body == Octets(raw) && b.body == Octets(raw)
    ensures Compare(a, b) == Some(0)
  {
    SameBytes(raw);
  }

  lemma {:induction false} CompareWrapped(a: Value, b: Value)
    requires a.body.TupleV? && |a.body.items| == 1 && b.body.TupleV? && |b.body.items| == 1
    requires !(b.body.items[0].body.TupleV?) && !(a.body.items[0].body.TupleV?)
    ensures Compare(a, b) == Compare(a.body.items[0], b.body.items[0])
  {
    assert Compare(a, b) == Compare(a.body.items[0], b);
  }

  lemma {:induction false} CompareThree(a: Value, b: Value)
    requires a.body.StructV? && b.body.StructV? && a.body.names == NAMES && b.body.names == NAMES
    requires |a.body.items| == 3 && |b.body.items| == 3
    requires Compare(a.body.items[0], b.body.items[0]) == Some(0)
    requires Compare(a.body.items[1], b.body.items[1]) == Some(0)
    requires Compare(a.body.items[2], b.body.items[2]) == Some(0)
    ensures Compare(a, b) == Some(0)
  {
    var n, xs, ys := NAMES, a.body.items, b.body.items;
    CompareStruct(NAMES, a, b);
    assert CompareFields(n[1..][1..][1..], xs[1..][1..][1..], n[1..][1..][1..], ys[1..][1..][1..]) == Some(0);
    assert xs[1..][0] == xs[1] && xs[1..][1..][0] == xs[2] && ys[1..][0] == ys[1] && ys[1..][1..][0] == ys[2];
    assert CompareFields(n[1..][1..], xs[1..][1..], n[1..][1..], ys[1..][1..]) == Some(0);
    assert CompareFields(n[1..], xs[1..], n[1..], ys[1..]) == Some(0);
  }

  /** Values that read as one reference compare as equal. */
  lemma {:induction false} SameRefSameValue(a: Value, b: Value, r: Ref)
    requires Parts(a, r) && Parts(b, r)
    ensures Compare(a, b) == Some(0)
  {
    var x, y := a.body.items, b.body.items;
    CompareOctets(x[0].body.items[0], y[0].body.items[0], r.op);
    CompareWrapped(x[0], y[0]);
    CompareShort(x[1].body.items[0], y[1].body.items[0], r.ty);
    CompareWrapped(x[1], y[1]);
    CompareShort(x[2], y[2], r.no);
    CompareThree(a, b);
  }

  lemma {:induction false} RefsDiffer(items: seq<Value>, i: nat, j: nat)
    requires (forall k :: 0 <= k < |items| ==> WellTyped(OPOUT, items[k])) && Increasing(items) && i < j < |items|
    ensures ReadRef(items[i]).Some? && ReadRef(items[j]).Some? && ReadRef(items[i]) != ReadRef(items[j])
  {
    var r := OpoutParts(items[i]);
    var s := OpoutParts(items[j]);
    PartsRead(items[i], r);
    PartsRead(items[j], s);
    IncreasingEverywhere(OPOUT, items, i, j);
    if r == s {
      SameRefSameValue(items[i], items[j], r);
    }
  }

  /** The inputs of a decoded transition: at least one, at most 65535, each a
      reference that fits its widths, no two the same. */
  lemma {:induction false} DecodedInputsDistinct(d: seq<byte>)
    requires Decode(INPUTS, d).Some?
    ensures var v := Decode(INPUTS, d).value;
            && v.body.SetV? && 1 <= |v.body.items| < U16
            && (forall i :: 0 <= i < |v.body.items| ==>
                  ReadRef(v.body.items[i]).Some? && ReadRef(v.body.items[i]).value.ty < U16 && ReadRef(v.body.items[i]).value.no < U16)
            && (forall i, j :: 0 <= i < j < |v.body.items| ==> ReadRef(v.body.items[i]) != ReadRef(v.body.items[j]))
  {
    DecodedEncodes(INPUTS, d);
    var items := Decode(INPUTS, d).value.body.items;
    forall k | 0 <= k < |items| ensures WellTyped(OPOUT, items[k]) {
      WellTypedAt(Copies(OPOUT, |items|), items, k);
    }
    forall i | 0 <= i < |items| ensures ReadRef(items[i]).Some? && ReadRef(items[i]).value.ty < U16 && ReadRef(items[i]).value.no < U16 {
      var r := OpoutParts(items[i]);
      PartsRead(items[i], r);
    }
    forall i, j | 0 <= i < j < |items| ensures ReadRef(items[i]) != ReadRef(items[j]) {
      RefsDiffer(items, i, j);
    }
  }

  /** The keys of a decoded input map: no input is committed twice. */
  lemma {:induction false} DecodedInputMapDistinct(d: seq<byte>)
    requires Decode(INPUT_MAP, d).Some?
    ensures var v := Decode(INPUT_MAP, d).value;
            && v.body.MapV? && 2 <= |v.body.items| <= 2 * 0xffff && |v.body.items| % 2 == 0
            && var keys := Keys(v.body.items);
               && (forall i :: 0 <= i < |keys| ==> ReadRef(keys[i]).Some?)
               && (forall i, j :: 0 <= i < j < |keys| ==> ReadRef(keys[i]) != ReadRef(keys[j]))
  {
    DecodedEncodes(INPUT_MAP, d);
    KeysTyped(Decode(INPUT_MAP, d).value);
    KeysDiffer(Keys(Decode(INPUT_MAP, d).value.body.items));
  }

  lemma {:induction false} KeysTyped(v: Value)
    requires WellTyped(INPUT_MAP, v)
    ensures v.body.MapV? && 2 <= |v.body.items| <= 2 * 0xffff && |v.body.items| % 2 == 0
    ensures Increasing(Keys(v.body.items)) && forall k :: 0 <= k < |Keys(v.body.items)| ==> WellTyped(OPOUT, Keys(v.body.items)[k])
  {
    var items := v.body.items;
    var keys := Keys(items);
    forall k | 0 <= k < |keys| ensures WellTyped(OPOUT, keys[k]) {
      KeyTyped(OPOUT, OP_ID, items, k);
    }
  }

  lemma {:induction false} KeyTyped(key: Ty, val: Ty, items: seq<Value>, k: nat)
    requires |items| % 2 == 0 && WellTypedAll(Pairs(key, val, |items| / 2), items) && k < |Keys(items)|
    ensures WellTyped(key, Keys(items)[k])
  {
    hide Keys, WellTyped, WellTypedAll, Pairs;
    PairsAt(key, val, |items| / 2, 2 * k);
    WellTypedAt(Pairs(key, val, |items| / 2), items, 2 * k);
  }

  lemma {:induction false} KeysDiffer(keys: seq<Value>)
    requires (forall k :: 0 <= k < |keys| ==> WellTyped(OPOUT, keys[k])) && Increasing(keys)
    ensures forall i :: 0 <= i < |keys| ==> ReadRef(keys[i]).Some?
    ensures forall i, j :: 0 <= i < j < |keys| ==> ReadRef(keys[i]) != ReadRef(keys[j])
  {
    hide WellTyped, Increasing, ReadRef;
    forall i | 0 <= i < |keys| ensures ReadRef(keys[i]).Some? {
      var r := OpoutParts(keys[i]);
      PartsRead(keys[i], r);
    }
    forall i, j | 0 <= i < j < |keys| ensures ReadRef(keys[i]) != ReadRef(keys[j]) {
      RefsDiffer(keys, i, j);
    }
  }
}
