/** Encoding a well-typed value and decoding it again, whatever follows it. */
module StrictReread {
  import opened Bytes
  import opened StrictTypes
  import opened StrictCodec
  import opened StrictRoundTrip
  import opened Wrappers

  /** The encoding of `v` exists, and decoding it before any suffix gives `v` with
      refreshed caches and leaves exactly the suffix. */
  ghost predicate Back(t: Ty, v: Value, r: seq<byte>)
    requires WellTyped(t, v)
  {
    Enc(t, v).Some? && Dec(t, Enc(t, v).value + r) == Some((Stamp(t, v), r))
  }

  ghost predicate BackBody(t: Ty, v: Value, r: seq<byte>)
    requires WellTyped(t, v)
  {
    Enc(t, v).Some? && DecBody(t, Enc(t, v).value + r) == Some((StampBody(t, v), r))
  }

  ghost predicate BackAll(ts: seq<Ty>, vs: seq<Value>, r: seq<byte>)
    requires |ts| == |vs| && WellTypedAll(ts, vs)
  {
    EncAll(ts, vs).Some? && DecAll(ts, EncAll(ts, vs).value + r) == Some((StampAll(ts, vs), r))
  }

  lemma {:induction false} BackFromBody(t: Ty, v: Value, r: seq<byte>)
    requires WellTyped(t, v) && BackBody(t, v, r)
    ensures Back(t, v, r)
  {
    var e := Enc(t, v).value;
    PrefixIs(e + r, e, r);
  }

  lemma {:induction false} ReadLengthBack(n: nat, max: u64, body: seq<byte>)
    requires n <= max
    ensures WriteLength(n, max).Some? && ReadLength(WriteLength(n, max).value + body, max) == Some((n, body))
  {
    var e := LittleEndian(n, LengthWidth(max));
    ReadWritten(n, LengthWidth(max));
    assert (e + body)[..|e|] == e && (e + body)[|e|..] == body;
  }

  lemma {:induction false} TakeBack(raw: seq<byte>, r: seq<byte>)
    ensures Take(raw + r, |raw|) == Some((raw, r))
  {
    assert (raw + r)[..|raw|] == raw && (raw + r)[|raw|..] == r;
  }

  lemma {:induction false} BackPrim(code: byte, v: Value, r: seq<byte>)
    requires WellTyped(Prim(code), v)
    ensures BackBody(Prim(code), v, r)
  {
    if code == 0 {
      assert [] + r == r;
    } else {
      TakeBack(RawNumber(PrimitiveSize(code), v.body), r);
    }
  }

  lemma {:induction false} BackUnicode(v: Value, r: seq<byte>)
    requires WellTyped(Unicode, v)
    ensures BackBody(Unicode, v, r)
  {
    var raw := v.body.text;
    LeadWidthIsRuneWidth(raw);
    assert raw[|raw|..] == [] && ValidUtf8(raw);
    TakeBack(raw, r);
    assert DecUnicode(raw + r) == Some((Str(raw, raw), r));
  }

  lemma {:induction false} BackEnum(vs: seq<Variant>, v: Value, r: seq<byte>)
    requires WellTyped(Enum(vs), v)
    ensures BackBody(Enum(vs), v, r)
  {
    SameVariant(vs, v.body.tag);
    assert ([v.body.tag] + r)[1..] == r;
  }

  lemma {:induction false} DecUnion(vs: seq<Variant>, tys: seq<Ty>, tag: byte, d: seq<byte>)
    requires FindTag(vs, tag).Some? && FindTag(vs, tag).value < |tys|
    ensures var i := FindTag(vs, tag).value;
            Dec(tys[i], d).Some? ==>
              DecBody(Union(vs, tys), [tag] + d) == Some((UnionV(vs[i].name, tag, Dec(tys[i], d).value.0), Dec(tys[i], d).value.1))
  {
    assert ([tag] + d)[1..] == d;
  }

  lemma {:induction false} BackUnion(vs: seq<Variant>, tys: seq<Ty>, v: Value, r: seq<byte>)
    requires WellTyped(Union(vs, tys), v)
    requires WellTyped(tys[FindTag(vs, v.body.tag).value], v.body.inner)
    requires Back(tys[FindTag(vs, v.body.tag).value], v.body.inner, r)
    ensures BackBody(Union(vs, tys), v, r)
  {
    hide FindTag, Dec, Depth;
    var tag := v.body.tag;
    assert v == Value(UnionV(vs[FindTag(vs, tag).value].name, tag, v.body.inner), v.encoded);
    hide Enc, WellTyped;
    UnionUnfold(vs, tys, tag, v.body.inner, v.encoded);
    var e := Enc(tys[FindTag(vs, tag).value], v.body.inner).value;
    assert [tag] + e + r == [tag] + (e + r);
    DecUnion(vs, tys, tag, e + r);
  }

  /** Length, raw bytes and suffix, read back one after the other. */
  lemma {:induction false} FlatBack(raw: seq<byte>, max: u64, r: seq<byte>)
    requires |raw| <= max
    ensures Join(WriteLength(|raw|, max), Some(raw)).Some?
    ensures ReadLength(Join(WriteLength(|raw|, max), Some(raw)).value + r, max) == Some((|raw|, raw + r))
    ensures Take(raw + r, |raw|) == Some((raw, r))
  {
    ReadLengthBack(|raw|, max, raw + r);
    TakeBack(raw, r);
    var w := WriteLength(|raw|, max).value;
    assert w + raw + r == w + (raw + r);
  }

  lemma {:induction false} BackRestricted(ts: seq<Ty>, v: Value, r: seq<byte>)
    requires Restricted(ts).Some? && WellTyped(Tuple(ts), v)
    ensures BackBody(Tuple(ts), v, r)
  {
    FlatBack(v.body.text, Restricted(ts).value.2, r);
  }

  lemma {:induction false} BackFlat(e: Ty, min: u64, max: u64, v: Value, r: seq<byte>)
    requires Flat(e) && WellTyped(List(e, min, max), v)
    ensures BackBody(List(e, min, max), v, r)
  {
    FlatBack(RawFlat(v.body).value, max, r);
  }

  lemma {:induction false} BackTuple(ts: seq<Ty>, v: Value, r: seq<byte>)
    requires Restricted(ts).None? && WellTyped(Tuple(ts), v) && WellTypedAll(ts, v.body.items)
    requires BackAll(ts, v.body.items, r)
    ensures BackBody(Tuple(ts), v, r)
  {
  }

  lemma {:induction false} BackStruct(names: seq<string>, ts: seq<Ty>, v: Value, r: seq<byte>)
    requires WellTyped(Struct(names, ts), v) && WellTypedAll(ts, v.body.items)
    requires BackAll(ts, v.body.items, r)
    ensures BackBody(Struct(names, ts), v, r)
  {
  }

  lemma {:induction false} BackArray(e: Ty, n: nat, v: Value, r: seq<byte>)
    requires WellTyped(Array(e, n), v)
    requires e != BYTE ==> WellTypedAll(Copies(e, n), v.body.items) && BackAll(Copies(e, n), v.body.items, r)
    ensures BackBody(Array(e, n), v, r)
  {
    if e == BYTE {
      TakeBack(v.body.raw, r);
    }
  }

  /** Length and items, read back one after the other. */
  lemma {:induction false} ItemsBack(n: nat, max: u64, ts: seq<Ty>, vs: seq<Value>, r: seq<byte>)
    requires n <= max && |ts| == |vs| && WellTypedAll(ts, vs) && BackAll(ts, vs, r)
    ensures Join(WriteLength(n, max), EncAll(ts, vs)).Some?
    ensures var d := Join(WriteLength(n, max), EncAll(ts, vs)).value + r;
            ReadLength(d, max) == Some((n, EncAll(ts, vs).value + r))
  {
    hide ReadLength, WriteLength, EncAll, DecAll, StampAll, WellTypedAll;
    var e := EncAll(ts, vs).value;
    ReadLengthBack(n, max, e + r);
    var w := WriteLength(n, max).value;
    assert w + e + r == w + (e + r);
  }

  lemma {:induction false} BackList(e: Ty, min: u64, max: u64, v: Value, r: seq<byte>)
    requires !Flat(e) && WellTyped(List(e, min, max), v) && WellTypedAll(Copies(e, |v.body.items|), v.body.items)
    requires BackAll(Copies(e, |v.body.items|), v.body.items, r)
    ensures BackBody(List(e, min, max), v, r)
  {
    ItemsBack(|v.body.items|, max, Copies(e, |v.body.items|), v.body.items, r);
  }

  lemma {:induction false} BackSet(e: Ty, min: u64, max: u64, v: Value, r: seq<byte>)
    requires WellTyped(Set(e, min, max), v) && WellTypedAll(Copies(e, |v.body.items|), v.body.items)
    requires BackAll(Copies(e, |v.body.items|), v.body.items, r)
    requires Increasing(StampAll(Copies(e, |v.body.items|), v.body.items))
    ensures BackBody(Set(e, min, max), v, r)
  {
    ItemsBack(|v.body.items|, max, Copies(e, |v.body.items|), v.body.items, r);
  }

  lemma {:induction false} BackMap(k: Ty, w: Ty, min: u64, max: u64, v: Value, r: seq<byte>)
    requires WellTyped(Map(k, w, min, max), v) && WellTypedAll(Pairs(k, w, |v.body.items| / 2), v.body.items)
    requires BackAll(Pairs(k, w, |v.body.items| / 2), v.body.items, r)
    requires Increasing(Keys(StampAll(Pairs(k, w, |v.body.items| / 2), v.body.items)))
    ensures BackBody(Map(k, w, min, max), v, r)
  {
    hide Increasing, Keys, Pairs, DecAll, EncAll, StampAll, ReadLength, WriteLength;
    var n := |v.body.items| / 2;
    var ts := Pairs(k, w, n);
    ItemsBack(n, max, ts, v.body.items, r);
    DecMap(k, w, min, max, n, EncAll(ts, v.body.items).value + r, Join(WriteLength(n, max), EncAll(ts, v.body.items)).value + r);
  }

  lemma {:induction false} DecMap(k: Ty, w: Ty, min: u64, max: u64, n: nat, body: seq<byte>, d: seq<byte>)
    requires ReadLength(d, max) == Some((n, body)) && min <= n
    requires DecAll(Pairs(k, w, n), body).Some? && Increasing(Keys(DecAll(Pairs(k, w, n), body).value.0))
    ensures DecBody(Map(k, w, min, max), d) ==
            Some((MapV(DecAll(Pairs(k, w, n), body).value.0), DecAll(Pairs(k, w, n), body).value.1))
  {
  }

  lemma {:induction false} LessKept(k: Ty, ts: seq<Ty>, vs: seq<Value>, i: nat, j: nat)
    requires |ts| == |vs| && WellTypedAll(ts, vs) && i < |ts| && j < |ts| && ts[i] == k && ts[j] == k
    requires Less(vs[i], vs[j])
    ensures Less(StampAll(ts, vs)[i], StampAll(ts, vs)[j])
  {
    WellTypedAt(ts, vs, i);
    WellTypedAt(ts, vs, j);
    StampKeepsOrder(k, vs[i], vs[j]);
  }

  /** Stamped items are as increasing as the items were. */
  lemma {:induction false} IncreasingKept(e: Ty, vs: seq<Value>)
    requires WellTypedAll(Copies(e, |vs|), vs) && Increasing(vs)
    ensures Increasing(StampAll(Copies(e, |vs|), vs))
  {
    var ts := Copies(e, |vs|);
    forall i | 1 <= i < |vs| ensures Less(StampAll(ts, vs)[i - 1], StampAll(ts, vs)[i]) {
      assert Less(vs[i - 1], vs[i]);
      LessKept(e, ts, vs, i - 1, i);
    }
  }

  lemma {:induction false} KeyType(k: Ty, w: Ty, n: nat, i: nat)
    requires i < n
    ensures Pairs(k, w, n)[2 * i] == k
  {
    PairsAt(k, w, n, 2 * i);
  }

  lemma {:induction false} IncreasingKeys(items: seq<Value>, n: nat)
    requires |items| == 2 * n
    ensures Increasing(Keys(items)) <==> forall i :: 1 <= i < n ==> Less(items[2 * i - 2], items[2 * i])
  {
    var keys := Keys(items);
    forall i | 1 <= i < n ensures Less(keys[i - 1], keys[i]) <==> Less(items[2 * i - 2], items[2 * i]) {
      assert keys[i - 1] == items[2 * (i - 1)] && keys[i] == items[2 * i];
    }
    if forall i :: 1 <= i < n ==> Less(items[2 * i - 2], items[2 * i]) {
      forall i | 1 <= i < |keys| ensures Less(keys[i - 1], keys[i]) {
        assert Less(items[2 * i - 2], items[2 * i]);
      }
    }
  }

  lemma {:induction false} KeysStayIncreasing(k: Ty, ts: seq<Ty>, vs: seq<Value>, n: nat)
    requires |vs| == |ts| == 2 * n && WellTypedAll(ts, vs) && Increasing(Keys(vs))
    requires forall i :: 0 <= i < n ==> ts[2 * i] == k
    ensures Increasing(Keys(StampAll(ts, vs)))
  {
    var stamped := StampAll(ts, vs);
    IncreasingKeys(vs, n);
    forall i | 1 <= i < n ensures Less(stamped[2 * i - 2], stamped[2 * i]) {
      assert ts[2 * (i - 1)] == k;
      LessKept(k, ts, vs, 2 * i - 2, 2 * i);
    }
    IncreasingKeys(stamped, n);
  }

  lemma {:induction false} IncreasingKeysKept(k: Ty, w: Ty, vs: seq<Value>)
    requires |vs| % 2 == 0 && WellTypedAll(Pairs(k, w, |vs| / 2), vs) && Increasing(Keys(vs))
    ensures Increasing(Keys(StampAll(Pairs(k, w, |vs| / 2), vs)))
  {
    var n := |vs| / 2;
    var ts := Pairs(k, w, n);
    forall i | 0 <= i < n ensures ts[2 * i] == k { KeyType(k, w, n, i); }
    KeysStayIncreasing(k, ts, vs, n);
  }

  /** What a well-typed value holds, by the kind of its type. */
  lemma {:induction false} WellTypedParts(t: Ty, v: Value)
    requires WellTyped(t, v)
    ensures t.Union? ==> v.body.UnionV? && FindTag(t.variants, v.body.tag).Some? && FindTag(t.variants, v.body.tag).value < |t.tys|
                         && WellTyped(t.tys[FindTag(t.variants, v.body.tag).value], v.body.inner)
    ensures t.Tuple? && Restricted(t.tys).None? ==> v.body.TupleV? && |v.body.items| == |t.tys| && WellTypedAll(t.tys, v.body.items)
    ensures t.Struct? ==> v.body.StructV? && |v.body.items| == |t.tys| && WellTypedAll(t.tys, v.body.items)
  {
  }

  /** Every well-typed value comes back from its encoding, before any suffix. */
  lemma {:induction false} EncodedDecodes(t: Ty, v: Value, r: seq<byte>)
    requires WellTyped(t, v)
    ensures Back(t, v, r)
    decreases Depth(t), 0
  {
    WellTypedParts(t, v);
    match t
    case Prim(code) => BackPrim(code, v, r); BackFromBody(t, v, r);
    case Unicode => BackUnicode(v, r); BackFromBody(t, v, r);
    case Enum(vs) => BackEnum(vs, v, r); BackFromBody(t, v, r);
    case Union(vs, tys) =>
      EncodedDecodes(tys[FindTag(vs, v.body.tag).value], v.body.inner, r);
      BackUnion(vs, tys, v, r);
      BackFromBody(t, v, r);
    case Tuple(ts) =>
      if Restricted(ts).Some? {
        BackRestricted(ts, v, r);
      } else {
        EncodedDecodesAll(ts, v.body.items, r);
        BackTuple(ts, v, r);
      }
      BackFromBody(t, v, r);
    case Struct(names, ts) =>
      EncodedDecodesAll(ts, v.body.items, r);
      BackStruct(names, ts, v, r);
      BackFromBody(t, v, r);
    case _ => CollectionDecodes(t, v, r);
  }

  lemma {:induction false} CollectionDecodes(t: Ty, v: Value, r: seq<byte>)
    requires t.Array? || t.List? || t.Set? || t.Map?
    requires WellTyped(t, v)
    ensures Back(t, v, r)
    decreases Depth(t), 0, 0
  {
    hide Enc, Dec, EncAll, DecAll;
    if Collection(t) {
      StampCollection(t, v);
      ItemTypesDepth(t, |ItemsOf(v)|);
      EncodedDecodesAll(ItemTypes(t, |ItemsOf(v)|), ItemsOf(v), r);
    }
    match t
    case Array(e, n) => BackArray(e, n, v, r); BackFromBody(t, v, r);
    case List(e, min, max) =>
      if Flat(e) { BackFlat(e, min, max, v, r); } else { BackList(e, min, max, v, r); }
      BackFromBody(t, v, r);
    case Set(e, min, max) =>
      IncreasingKept(e, v.body.items);
      BackSet(e, min, max, v, r);
      BackFromBody(t, v, r);
    case Map(k, w, min, max) =>
      IncreasingKeysKept(k, w, v.body.items);
      BackMap(k, w, min, max, v, r);
      BackFromBody(t, v, r);
  }

  lemma {:induction false} BackCons(t: Ty, ts: seq<Ty>, v: Value, vs: seq<Value>, r: seq<byte>)
    requires |ts| == |vs| && WellTyped(t, v) && WellTypedAll(ts, vs) && BackAll(ts, vs, r)
    requires Back(t, v, EncAll(ts, vs).value + r)
    ensures WellTypedAll([t] + ts, [v] + vs) && BackAll([t] + ts, [v] + vs, r)
  {
    AllCons(t, ts, v, vs);
    var e, es := Enc(t, v).value, EncAll(ts, vs).value;
    ConcatAssociative(e, es, r);
    DecAllCons(t, ts, e + es + r);
  }

  lemma {:induction false} EncodedDecodesAll(ts: seq<Ty>, vs: seq<Value>, r: seq<byte>)
    requires |ts| == |vs| && WellTypedAll(ts, vs)
    ensures BackAll(ts, vs, r)
    decreases DepthAll(ts), |ts| + 1
  {
    if ts == [] {
      assert [] + r == r;
    } else {
      EncodedDecodesAll(ts[1..], vs[1..], r);
      EncodedDecodes(ts[0], vs[0], EncAll(ts[1..], vs[1..]).value + r);
      BackCons(ts[0], ts[1..], vs[0], vs[1..], r);
      assert [ts[0]] + ts[1..] == ts && [vs[0]] + vs[1..] == vs;
    }
  }

  // ----- what a reader of the codec relies on

  /** Decoding is injective: two byte strings that decode to values of one encoding are equal. */
  lemma {:induction false} DecodeInjective(t: Ty, d: seq<byte>, e: seq<byte>)
    requires Decode(t, d).Some? && Decode(t, d) == Decode(t, e)
    ensures d == e
  {
    DecodedEncodes(t, d);
    DecodedEncodes(t, e);
    assert Decode(t, d).value.encoded + [] == d && Decode(t, e).value.encoded + [] == e;
  }

  /** The whole-string form of both directions: an accepted string is the encoding of
      its value, and any well-typed value, stale caches or not, decodes back to itself. */
  lemma {:induction false} DecodeEncode(t: Ty, d: seq<byte>)
    requires Decode(t, d).Some?
    ensures Enc(t, Decode(t, d).value) == Some(d)
  {
    DecodedEncodes(t, d);
    assert Decode(t, d).value.encoded + [] == Decode(t, d).value.encoded;
  }

  lemma {:induction false} EncodeDecode(t: Ty, v: Value)
    requires WellTyped(t, v)
    ensures Enc(t, v).Some? && Decode(t, Enc(t, v).value) == Some(Stamp(t, v))
    ensures Decode(t, Enc(t, v).value) == Some(v) <==> Stamp(t, v) == v
  {
    EncodedDecodes(t, v, []);
    assert Enc(t, v).value + [] == Enc(t, v).value;
  }

  /** What one decoding returned, the next one returns again, before any suffix. */
  lemma {:induction false} DecodedComesBack(t: Ty, d: seq<byte>, r: seq<byte>)
    requires Dec(t, d).Some?
    ensures var v := Dec(t, d).value.0; Enc(t, v).Some? && Dec(t, Enc(t, v).value + r) == Some((v, r))
  {
    DecodedEncodes(t, d);
    EncodedDecodes(t, Dec(t, d).value.0, r);
  }

  // ----- numbers built without raw bytes

  lemma {:induction false} LowBytes(v: nat, n: nat, k: nat)
    requires n <= k
    ensures LittleEndian(v, k)[..n] == LittleEndian(v, n)
    decreases k
  {
    if n > 0 {
      LowBytes(v / 256, n - 1, k - 1);
      assert LittleEndian(v, k)[..n] == [v % 256] + LittleEndian(v / 256, k - 1)[..n - 1];
    }
  }

  /** The bytes of a number built from an unsigned value are that value exactly
      when it fits the width; a larger one is cut without an error. */
  lemma {:induction false} BuiltUnsigned(code: byte, u: nat)
    requires 1 <= PrimitiveSize(code) <= 8 && (Class(code) == 0 || Class(code) == 0x80) && u < U64
    ensures WellTypedNumber(code, Number(code, [], Some(u), None)) <==>
            u < Pow256(PrimitiveSize(code)) && (Class(code) == 0x80 ==> u != 0)
    ensures Enc(Prim(code), Value(Number(code, [], Some(u), None), [])).Some?
  {
    var n := PrimitiveSize(code);
    LowBytes(u, n, 8);
    if u < Pow256(n) {
      ReadWritten(u, n);
    }
  }

  /** `m` times 256 to the power `n`. */
  function Scale(n: nat, m: nat): nat {
    if n == 0 then m else 256 * Scale(n - 1, m)
  }

  lemma {:induction false} ScaleAdd(n: nat, a: nat, b: nat)
    ensures Scale(n, a + b) == Scale(n, a) + Scale(n, b)
  {
    if n > 0 { ScaleAdd(n - 1, a, b); }
  }

  lemma {:induction false} ScalePower(n: nat, m: nat)
    ensures Scale(n, Pow256(m)) == Pow256(n + m)
  {
    if n > 0 { ScalePower(n - 1, m); }
  }

  /** Multiples of the width do not reach the low bytes. */
  lemma {:induction false} LowBytesPeriodic(v: nat, n: nat, m: nat)
    ensures LittleEndian(v + Scale(n, m), n) == LittleEndian(v, n)
  {
    if n > 0 {
      var k := Scale(n - 1, m);
      assert (v + 256 * k) % 256 == v % 256 && (v + 256 * k) / 256 == v / 256 + k;
      LowBytesPeriodic(v / 256, n - 1, m);
    }
  }

  /** `s` lies in the two's complement range of `n` bytes. */
  ghost predicate FitsSigned(s: int, n: nat) {
    2 * s < Pow256(n) && -(2 * s) <= Pow256(n)
  }

  /** A negative number's 64-bit pattern, as its pattern in `n` bytes and a multiple. */
  lemma {:induction false} NegativePattern(s: int, n: nat)
    requires n <= 8 && s < 0 && -s <= Pow256(n)
    ensures s + U64 >= 0
    ensures LittleEndian(s + U64, n) == LittleEndian(s + Pow256(n), n)
  {
    hide LittleEndian;
    Pow256Widths();
    PowerMonotone(n, 8);
    var m := Pow256(8 - n) - 1;
    ScalePower(n, 8 - n);
    ScalePower(n, 0);
    ScaleAdd(n, m, 1);
    LowBytesPeriodic(s + Pow256(n), n, m);
  }

  lemma {:induction false} NegativeBack(s: int, n: nat)
    requires 1 <= n <= 8 && s < 0 && FitsSigned(s, n)
    ensures s + U64 >= 0 && LittleEndianInt(LittleEndian(s + U64, n)) == s
  {
    NegativePattern(s, n);
    ReadWritten(s + Pow256(n), n);
  }

  lemma {:induction false} PositiveBack(s: nat, n: nat)
    requires 1 <= n && FitsSigned(s, n)
    ensures LittleEndianInt(LittleEndian(s, n)) == s
  {
    ReadWritten(s, n);
  }

  lemma {:induction false} Modulo64(s: int)
    requires 2 * s < U64 && -(2 * s) <= U64
    ensures s % U64 == if s >= 0 then s else s + U64
  {
  }

  /** The two's complement of `s`, cut to `n` bytes, reads back as `s` when it fits. */
  lemma {:induction false} SignedBack(s: int, n: nat)
    requires 1 <= n <= 8 && FitsSigned(s, n)
    ensures LittleEndianInt(LittleEndian(s % U64, n)) == s
  {
    hide LittleEndian, LittleEndianInt;
    Pow256Widths();
    PowerMonotone(n, 8);
    Modulo64(s);
    if s >= 0 {
      PositiveBack(s, n);
    } else {
      NegativeBack(s, n);
    }
  }

  lemma {:induction false} PowerMonotone(n: nat, m: nat)
    requires n <= m
    ensures Pow256(n) <= Pow256(m)
    decreases m - n
  {
    if n < m { PowerMonotone(n + 1, m); }
  }

  /** A number built from a signed 64-bit value is that value exactly when it fits
      the two's complement of the width, for every width from 1 to 8. */
  lemma {:induction false} BuiltSigned(code: byte, s: int)
    requires 1 <= PrimitiveSize(code) <= 8 && Class(code) == 0x40 && FitsSigned(s, 8)
    ensures WellTypedNumber(code, Number(code, [], None, Some(s))) <==>
            FitsSigned(s, PrimitiveSize(code))
    ensures Enc(Prim(code), Value(Number(code, [], None, Some(s)), [])).Some?
  {
    var n := PrimitiveSize(code);
    LowBytes(s % U64, n, 8);
    if FitsSigned(s, n) {
      SignedBack(s, n);
    }
  }
}
