/** The writer of the codec: every method appends to one buffer. */
module StrictWriter {
  import opened Bytes
  import opened StrictTypes
  import opened StrictCodec
  import opened StrictRoundTrip
  import opened Wrappers

  lemma {:induction false} EncAllSplit(ts: seq<Ty>, vs: seq<Value>, us: seq<Ty>, ws: seq<Value>)
    requires |ts| == |vs| && |us| == |ws|
    ensures EncAll(ts + us, vs + ws) == Join(EncAll(ts, vs), EncAll(us, ws))
  {
    if ts == [] {
      assert ts + us == us && vs + ws == ws;
      if EncAll(us, ws).Some? { assert [] + EncAll(us, ws).value == EncAll(us, ws).value; }
    } else {
      assert ts + us == [ts[0]] + (ts[1..] + us) && vs + ws == [vs[0]] + (vs[1..] + ws);
      assert ts == [ts[0]] + ts[1..] && vs == [vs[0]] + vs[1..];
      AllCons(ts[0], ts[1..] + us, vs[0], vs[1..] + ws);
      AllCons(ts[0], ts[1..], vs[0], vs[1..]);
      EncAllSplit(ts[1..], vs[1..], us, ws);
      JoinAssociative(Enc(ts[0], vs[0]), EncAll(ts[1..], vs[1..]), EncAll(us, ws));
    }
  }

  lemma {:induction false} JoinAssociative(a: Option<seq<byte>>, b: Option<seq<byte>>, c: Option<seq<byte>>)
    ensures Join(Join(a, b), c) == Join(a, Join(b, c))
  {
    if a.Some? && b.Some? && c.Some? {
      ConcatAssociative(a.value, b.value, c.value);
    }
  }

  lemma {:induction false} EncAllStep(ts: seq<Ty>, vs: seq<Value>, i: nat)
    requires |ts| == |vs| && i < |ts|
    ensures EncAll(ts[..i + 1], vs[..i + 1]) == Join(EncAll(ts[..i], vs[..i]), Enc(ts[i], vs[i]))
    ensures Enc(ts[i], vs[i]).None? ==> EncAll(ts, vs).None?
  {
    hide EncAll, Enc;
    assert ts[..i + 1] == ts[..i] + [ts[i]] && vs[..i + 1] == vs[..i] + [vs[i]];
    EncAllSplit(ts[..i], vs[..i], [ts[i]], [vs[i]]);
    EncAllOne(ts[i], vs[i]);
    assert ts == ts[..i + 1] + ts[i + 1..] && vs == vs[..i + 1] + vs[i + 1..];
    EncAllSplit(ts[..i + 1], vs[..i + 1], ts[i + 1..], vs[i + 1..]);
  }

  lemma {:induction false} EncAllOne(t: Ty, v: Value)
    ensures EncAll([t], [v]) == Enc(t, v)
  {
    AllCons(t, [], v, []);
    assert [t] + [] == [t] && [v] + [] == [v];
    if Enc(t, v).Some? { assert Enc(t, v).value + [] == Enc(t, v).value; }
  }

  method IncreasingCheck(items: seq<Value>) returns (ok: bool)
    ensures ok <==> Increasing(items)
  {
    var index := 1;
    while index < |items|
      invariant 1 <= index && (index <= |items| || items == [])
      invariant forall i :: 1 <= i < index && i < |items| ==> Less(items[i - 1], items[i])
    {
      if !Less(items[index - 1], items[index]) {
        return false;
      }
      index := index + 1;
    }
    return true;
  }

  class Encoder {
    var buffer: seq<byte>

    constructor ()
      ensures buffer == []
    {
      buffer := [];
    }

    /** What a successful write leaves in the buffer that held `before`. */
    ghost predicate Wrote(before: seq<byte>, spec: Option<seq<byte>>, ok: bool)
      reads this
    {
      (ok <==> spec.Some?) && (ok ==> buffer == before + spec.value)
    }

    method Raw(raw: seq<byte>)
      modifies this
      ensures buffer == old(buffer) + raw
    {
      buffer := buffer + raw;
    }

    method Length(n: nat, max: nat) returns (ok: bool)
      modifies this
      ensures Wrote(old(buffer), WriteLength(n, max), ok)
    {
      if n > max {
        return false;
      }
      Raw(LittleEndian(n, LengthWidth(max)));
      return true;
    }

    method EncodeType(t: Ty, v: Value) returns (ok: bool)
      modifies this
      ensures Wrote(old(buffer), Enc(t, v), ok)
      decreases Depth(t), 1
    {
      match t
      case Prim(code) => ok := EncodePrimitive(code, v);
      case Unicode => ok := EncodeUnicode(v);
      case Enum(vs) => ok := EncodeEnum(vs, v);
      case Union(vs, tys) => ok := EncodeUnion(vs, tys, v);
      case Tuple(ts) => ok := EncodeTuple(ts, v);
      case Struct(names, ts) => ok := EncodeStruct(names, ts, v);
      case Array(e, n) => ok := EncodeArray(e, n, v);
      case List(e, min, max) => ok := EncodeList(e, min, max, v);
      case Set(e, min, max) => ok := EncodeSet(e, min, max, v);
      case Map(k, val, min, max) => ok := EncodeMap(k, val, min, max, v);
    }

    method EncodePrimitive(code: byte, v: Value) returns (ok: bool)
      modifies this
      ensures Wrote(old(buffer), Enc(Prim(code), v), ok)
    {
      var b := Unwrap(v).body;
      if code == 0 {
        assert buffer + [] == buffer;
        return b.Unit?;
      }
      var size := PrimitiveSize(code);
      if size == 0 || !b.Number? {
        return false;
      }
      var raw := RawNumber(size, b);
      if |raw| != size {
        return false;
      }
      Raw(raw);
      return true;
    }

    method EncodeUnicode(v: Value) returns (ok: bool)
      modifies this
      ensures Wrote(old(buffer), Enc(Unicode, v), ok)
    {
      var b := Unwrap(v).body;
      if !b.Str? || !OneRune(RawText(b)) {
        return false;
      }
      Raw(RawText(b));
      return true;
    }

    method EncodeEnum(vs: seq<Variant>, v: Value) returns (ok: bool)
      modifies this
      ensures Wrote(old(buffer), Enc(Enum(vs), v), ok)
    {
      var b := Unwrap(v).body;
      if !b.EnumV? {
        return false;
      }
      for i := 0 to |vs|
        invariant buffer == old(buffer)
        invariant forall j :: 0 <= j < i ==> vs[j].tag != b.tag || (b.name != "" && b.name != vs[j].name)
      {
        if vs[i].tag == b.tag && (b.name == "" || b.name == vs[i].name) {
          Raw([b.tag]);
          return true;
        }
      }
      return false;
    }

    method EncodeUnion(vs: seq<Variant>, tys: seq<Ty>, v: Value) returns (ok: bool)
      modifies this
      ensures Wrote(old(buffer), Enc(Union(vs, tys), v), ok)
      decreases Depth(Union(vs, tys)), 0
    {
      var b := Unwrap(v).body;
      if !b.UnionV? || FindVariant(vs, b.tag, b.name).None? || FindVariant(vs, b.tag, b.name).value >= |tys| {
        return false;
      }
      Raw([b.tag]);
      ok := EncodeType(tys[FindVariant(vs, b.tag, b.name).value], b.inner);
      if ok {
        ConcatAssociative(old(buffer), [b.tag], Enc(tys[FindVariant(vs, b.tag, b.name).value], b.inner).value);
      }
    }

    /** Items at the given types, one after the other. */
    method EncodeRefs(ts: seq<Ty>, vs: seq<Value>) returns (ok: bool)
      requires |ts| == |vs|
      modifies this
      ensures Wrote(old(buffer), EncAll(ts, vs), ok)
      decreases DepthAll(ts), 2
    {
      assert buffer + [] == buffer;
      for i := 0 to |ts|
        invariant EncAll(ts[..i], vs[..i]).Some? && buffer == old(buffer) + EncAll(ts[..i], vs[..i]).value
      {
        EncAllStep(ts, vs, i);
        ghost var front := EncAll(ts[..i], vs[..i]).value;
        ok := EncodeType(ts[i], vs[i]);
        if !ok {
          return false;
        }
        ConcatAssociative(old(buffer), front, Enc(ts[i], vs[i]).value);
      }
      assert ts[..|ts|] == ts && vs[..|vs|] == vs;
      return true;
    }

    method EncodeTuple(ts: seq<Ty>, v: Value) returns (ok: bool)
      modifies this
      ensures Wrote(old(buffer), Enc(Tuple(ts), v), ok)
      decreases Depth(Tuple(ts)), 0
    {
      if Restricted(ts).Some? {
        var (_, min, max) := Restricted(ts).value;
        if !v.body.Str? || |RawText(v.body)| < min {
          return false;
        }
        ok := EncodeConfined(RawText(v.body), max);
      } else if v.body.TupleV? && |v.body.items| == |ts| {
        ok := EncodeRefs(ts, v.body.items);
      } else if |ts| == 1 {
        ok := EncodeType(ts[0], Unwrap(v));
      } else {
        ok := false;
      }
    }

    /** A length prefix and raw bytes. */
    method EncodeConfined(raw: seq<byte>, max: nat) returns (ok: bool)
      modifies this
      ensures Wrote(old(buffer), Join(WriteLength(|raw|, max), Some(raw)), ok)
    {
      ok := Length(|raw|, max);
      if !ok {
        return false;
      }
      ConcatAssociative(old(buffer), WriteLength(|raw|, max).value, raw);
      Raw(raw);
    }

    method EncodeStruct(names: seq<string>, ts: seq<Ty>, v: Value) returns (ok: bool)
      modifies this
      ensures Wrote(old(buffer), Enc(Struct(names, ts), v), ok)
      decreases Depth(Struct(names, ts)), 0
    {
      var b := Unwrap(v).body;
      if !b.StructV? || b.names != names || |b.items| != |ts| || |ts| != |names| {
        return false;
      }
      ok := EncodeRefs(ts, b.items);
    }

    method EncodeArray(e: Ty, n: nat, v: Value) returns (ok: bool)
      modifies this
      ensures Wrote(old(buffer), Enc(Array(e, n), v), ok)
      decreases Depth(Array(e, n)), 0
    {
      if e == BYTE {
        if !v.body.Octets? || |v.body.raw| != n {
          return false;
        }
        Raw(v.body.raw);
        return true;
      }
      var b := Unwrap(v).body;
      if !b.ListV? || |b.items| != n {
        return false;
      }
      ok := EncodeRefs(Copies(e, n), b.items);
    }

    /** A length prefix counting `n`, and items. */
    method EncodeItems(n: nat, max: nat, ts: seq<Ty>, vs: seq<Value>) returns (ok: bool)
      requires |ts| == |vs|
      modifies this
      ensures Wrote(old(buffer), Join(WriteLength(n, max), EncAll(ts, vs)), ok)
      decreases DepthAll(ts), 3
    {
      ok := Length(n, max);
      if !ok {
        return false;
      }
      ok := EncodeRefs(ts, vs);
      if ok {
        ConcatAssociative(old(buffer), WriteLength(n, max).value, EncAll(ts, vs).value);
      }
    }

    method EncodeList(e: Ty, min: u64, max: u64, v: Value) returns (ok: bool)
      modifies this
      ensures Wrote(old(buffer), Enc(List(e, min, max), v), ok)
      decreases Depth(List(e, min, max)), 0
    {
      if Flat(e) {
        var raw := RawFlat(v.body);
        if raw.None? || |raw.value| < min {
          return false;
        }
        ok := EncodeConfined(raw.value, max);
      } else {
        var b := Unwrap(v).body;
        if !b.ListV? || |b.items| < min {
          return false;
        }
        ok := EncodeItems(|b.items|, max, Copies(e, |b.items|), b.items);
      }
    }

    method EncodeSet(e: Ty, min: u64, max: u64, v: Value) returns (ok: bool)
      modifies this
      ensures Wrote(old(buffer), Enc(Set(e, min, max), v), ok)
      decreases Depth(Set(e, min, max)), 0
    {
      var b := Unwrap(v).body;
      if !b.SetV? || |b.items| < min {
        return false;
      }
      var ordered := IncreasingCheck(b.items);
      if !ordered {
        return false;
      }
      ok := EncodeItems(|b.items|, max, Copies(e, |b.items|), b.items);
    }

    method EncodeMap(k: Ty, val: Ty, min: u64, max: u64, v: Value) returns (ok: bool)
      modifies this
      ensures Wrote(old(buffer), Enc(Map(k, val, min, max), v), ok)
      decreases Depth(Map(k, val, min, max)), 0
    {
      var b := Unwrap(v).body;
      if !b.MapV? || |b.items| % 2 != 0 || |b.items| / 2 < min {
        return false;
      }
      var ordered := IncreasingCheck(Keys(b.items));
      if !ordered {
        return false;
      }
      ok := EncodeItems(|b.items| / 2, max, Pairs(k, val, |b.items| / 2), b.items);
    }
  }
}
