/** Decoding is the inverse of encoding, in both directions, and the caches it
    leaves are the canonical encodings. */
module StrictRoundTrip {
  import opened Bytes
  import opened StrictTypes
  import opened StrictCodec
  import opened Wrappers

  // ----- what was decoded encodes to what was read

  /** The value read from `d` is well-typed, its cache and every cache inside it is
      the encoding of its node, and the encoding with the rest is `d`. */
  ghost predicate Sound(t: Ty, d: seq<byte>) {
    Dec(t, d).Some? ==>
      var (v, rest) := Dec(t, d).value;
      WellTyped(t, v) && Enc(t, v) == Some(v.encoded) && d == v.encoded + rest && Stamp(t, v) == v
  }

  ghost predicate SoundAll(ts: seq<Ty>, d: seq<byte>) {
    DecAll(ts, d).Some? ==>
      var (vs, rest) := DecAll(ts, d).value;
      && WellTypedAll(ts, vs) && EncAll(ts, vs).Some? && d == EncAll(ts, vs).value + rest && StampAll(ts, vs) == vs
  }

  lemma {:induction false} ReadLengthSound(d: seq<byte>, max: nat)
    ensures ReadLength(d, max).Some? ==>
              var (n, rest) := ReadLength(d, max).value;
              WriteLength(n, max).Some? && d == WriteLength(n, max).value + rest
  {
    if ReadLength(d, max).Some? {
      WriteRead(d[..LengthWidth(max)]);
      assert d == d[..LengthWidth(max)] + d[LengthWidth(max)..];
    }
  }

  lemma {:induction false} SoundPrim(code: byte, d: seq<byte>)
    ensures Sound(Prim(code), d)
  {
    if DecBody(Prim(code), d).Some? && code != 0 {
      var size := PrimitiveSize(code);
      var (_, rest) := DecBody(Prim(code), d).value;
      assert d == d[..size] + rest;
    }
  }

  /** A string starting with a whole character of its announced width. */
  lemma {:induction false} LeadWidthIsRuneWidth(raw: seq<byte>)
    requires raw != [] && RuneWidth(raw) > 0
    ensures LeadWidth(raw[0]) == RuneWidth(raw)
  {
  }

  lemma {:induction false} SoundUnicode(d: seq<byte>)
    ensures Sound(Unicode, d)
  {
    if DecBody(Unicode, d).Some? {
      var raw := d[..LeadWidth(d[0])];
      LeadWidthIsRuneWidth(raw);
      assert d == raw + d[|raw|..];
    }
  }

  lemma {:induction false} SoundEnum(vs: seq<Variant>, d: seq<byte>)
    ensures Sound(Enum(vs), d)
  {
    if DecBody(Enum(vs), d).Some? {
      SameVariant(vs, d[0]);
      PrefixIs(d, [d[0]], d[1..]);
    }
  }

  lemma {:induction false} PrefixIs(d: seq<byte>, e: seq<byte>, rest: seq<byte>)
    requires |rest| <= |d| && d == e + rest
    ensures d[..|d| - |rest|] == e
  {
  }

  /** Decoding and encoding select the same variant: the first with the tag. */
  lemma {:induction false} SameVariant(vs: seq<Variant>, tag: byte)
    requires FindTag(vs, tag).Some?
    ensures FindVariant(vs, tag, vs[FindTag(vs, tag).value].name) == FindTag(vs, tag)
  {
    var i := FindTag(vs, tag).value;
    assert vs[i] == Variant(vs[i].name, tag);
  }

  /** The three functions at a union value, unfolded once. */
  lemma {:induction false} UnionUnfold(vs: seq<Variant>, tys: seq<Ty>, tag: byte, inner: Value, cache: seq<byte>)
    requires FindTag(vs, tag).Some? && FindTag(vs, tag).value < |tys|
    ensures var i := FindTag(vs, tag).value;
            var v := Value(UnionV(vs[i].name, tag, inner), cache);
            && (WellTyped(Union(vs, tys), v) <==> WellTyped(tys[i], inner))
            && Enc(Union(vs, tys), v) == Join(Some([tag]), Enc(tys[i], inner))
            && (WellTyped(tys[i], inner) ==> StampBody(Union(vs, tys), v) == UnionV(vs[i].name, tag, Stamp(tys[i], inner)))
  {
    SameVariant(vs, tag);
  }

  lemma {:induction false} DecUnfold(vs: seq<Variant>, tys: seq<Ty>, d: seq<byte>)
    ensures DecBody(Union(vs, tys), d) ==
            if d == [] || FindTag(vs, d[0]).None? || FindTag(vs, d[0]).value >= |tys| then None
            else
              var i := FindTag(vs, d[0]).value;
              if Dec(tys[i], d[1..]).None? then None
              else Some((UnionV(vs[i].name, d[0], Dec(tys[i], d[1..]).value.0), Dec(tys[i], d[1..]).value.1))
  {
    hide Dec;
  }

  /** Soundness from its parts. */
  lemma {:induction false} SoundFrom(t: Ty, d: seq<byte>, body: Body, rest: seq<byte>)
    requires |rest| <= |d| && DecBody(t, d) == Some((body, rest))
    requires var v := Value(body, d[..|d| - |rest|]);
             WellTyped(t, v) && Enc(t, v) == Some(v.encoded) && d == v.encoded + rest && StampBody(t, v) == body
    ensures Sound(t, d)
  {
    hide DecBody, WellTyped, Enc, StampBody;
  }

  lemma {:induction false} SoundUnion(vs: seq<Variant>, tys: seq<Ty>, d: seq<byte>)
    requires d != [] && FindTag(vs, d[0]).Some? && FindTag(vs, d[0]).value < |tys| ==>
               Sound(tys[FindTag(vs, d[0]).value], d[1..])
    ensures Sound(Union(vs, tys), d)
  {
    hide DecBody, Dec, FindTag, WellTyped, Enc, StampBody, Stamp;
    DecUnfold(vs, tys, d);
    if DecBody(Union(vs, tys), d).Some? {
      var i := FindTag(vs, d[0]).value;
      var (inner, rest) := Dec(tys[i], d[1..]).value;
      assert d == [d[0]] + d[1..];
      PrefixIs(d, [d[0]] + inner.encoded, rest);
      UnionUnfold(vs, tys, d[0], inner, d[..|d| - |rest|]);
      SoundFrom(Union(vs, tys), d, UnionV(vs[i].name, d[0], inner), rest);
    } else {
      NotDecoded(Union(vs, tys), d);
    }
  }

  lemma {:induction false} NotDecoded(t: Ty, d: seq<byte>)
    requires DecBody(t, d).None?
    ensures Sound(t, d)
  {
    hide DecBody;
  }

  lemma {:induction false} SoundRestricted(ts: seq<Ty>, d: seq<byte>)
    requires Restricted(ts).Some?
    ensures Sound(Tuple(ts), d)
  {
    if DecBody(Tuple(ts), d).Some? {
      FlatParts(Restricted(ts).value.2, d);
    }
  }

  lemma {:induction false} SoundTuple(ts: seq<Ty>, d: seq<byte>)
    requires Restricted(ts).None? && SoundAll(ts, d)
    ensures Sound(Tuple(ts), d)
  {
  }

  lemma {:induction false} SoundStruct(names: seq<string>, ts: seq<Ty>, d: seq<byte>)
    requires SoundAll(ts, d)
    ensures Sound(Struct(names, ts), d)
  {
  }

  lemma {:induction false} SoundArray(e: Ty, n: nat, d: seq<byte>)
    requires SoundAll(Copies(e, n), d)
    ensures Sound(Array(e, n), d)
  {
    hide Sound, SoundAll;
    if e == BYTE {
      SoundBytes(n, d);
    } else {
      SoundElements(e, n, d);
    }
  }

  lemma {:induction false} SoundBytes(n: nat, d: seq<byte>)
    ensures Sound(Array(BYTE, n), d)
  {
    if n <= |d| {
      assert d == d[..n] + d[n..];
    }
  }

  lemma {:induction false} SoundElements(e: Ty, n: nat, d: seq<byte>)
    requires e != BYTE && SoundAll(Copies(e, n), d)
    ensures Sound(Array(e, n), d)
  {
    hide Copies, DecAll, EncAll, WellTypedAll, StampAll;
    if DecBody(Array(e, n), d).Some? {
      var (vs, rest) := DecAll(Copies(e, n), d).value;
      PrefixIs(d, EncAll(Copies(e, n), vs).value, rest);
      SoundFrom(Array(e, n), d, ListV(vs), rest);
    }
  }

  lemma {:induction false} FlatParts(max: nat, d: seq<byte>)
    requires ReadLength(d, max).Some?
    requires ReadLength(d, max).value.0 <= |ReadLength(d, max).value.1|
    ensures var (n, body) := ReadLength(d, max).value;
            && WriteLength(n, max).Some? && d == WriteLength(n, max).value + body[..n] + body[n..]
            && d[..|d| - |body[n..]|] == WriteLength(n, max).value + body[..n]
  {
    ReadLengthSound(d, max);
    var (n, body) := ReadLength(d, max).value;
    assert body == body[..n] + body[n..];
    PrefixIs(d, WriteLength(n, max).value + body[..n], body[n..]);
  }

  lemma {:induction false} SoundFlat(e: Ty, min: u64, max: u64, d: seq<byte>)
    requires Flat(e)
    ensures Sound(List(e, min, max), d)
  {
    if DecBody(List(e, min, max), d).Some? {
      var (n, body) := ReadLength(d, max).value;
      FlatParts(max, d);
      FlatEncodes(e, min, max, body[..n]);
    }
  }

  lemma {:induction false} FlatEncodes(e: Ty, min: u64, max: u64, raw: seq<byte>)
    requires Flat(e) && FlatContent(e, raw) && min <= |raw| <= max
    ensures forall c :: var v := Value(FlatBody(e, raw), c);
                   && WellTyped(List(e, min, max), v)
                   && Enc(List(e, min, max), v) == Join(WriteLength(|raw|, max), Some(raw))
                   && StampBody(List(e, min, max), v) == v.body
  {
  }

  lemma {:induction false} SoundItems(n: nat, max: nat, d: seq<byte>, ts: seq<Ty>)
    requires ReadLength(d, max).Some? && ReadLength(d, max).value.0 == n
    requires DecAll(ts, ReadLength(d, max).value.1).Some? && SoundAll(ts, ReadLength(d, max).value.1)
    ensures WriteLength(n, max).Some?
    ensures var (vs, rest) := DecAll(ts, ReadLength(d, max).value.1).value;
            d == WriteLength(n, max).value + EncAll(ts, vs).value + rest
  {
    ReadLengthSound(d, max);
    var body := ReadLength(d, max).value.1;
    var (vs, rest) := DecAll(ts, body).value;
    assert d == WriteLength(n, max).value + (EncAll(ts, vs).value + rest);
  }

  lemma {:induction false} SoundList(e: Ty, min: u64, max: u64, d: seq<byte>)
    requires !Flat(e)
    requires ReadLength(d, max).Some? ==> SoundAll(Copies(e, ReadLength(d, max).value.0), ReadLength(d, max).value.1)
    ensures Sound(List(e, min, max), d)
  {
    if DecBody(List(e, min, max), d).Some? {
      var n := ReadLength(d, max).value.0;
      SoundItems(n, max, d, Copies(e, n));
    }
  }

  lemma {:induction false} SoundSet(e: Ty, min: u64, max: u64, d: seq<byte>)
    requires ReadLength(d, max).Some? ==> SoundAll(Copies(e, ReadLength(d, max).value.0), ReadLength(d, max).value.1)
    ensures Sound(Set(e, min, max), d)
  {
    if DecBody(Set(e, min, max), d).Some? {
      var n := ReadLength(d, max).value.0;
      SoundItems(n, max, d, Copies(e, n));
    }
  }

  lemma {:induction false} SoundMap(k: Ty, v: Ty, min: u64, max: u64, d: seq<byte>)
    requires ReadLength(d, max).Some? ==> SoundAll(Pairs(k, v, ReadLength(d, max).value.0), ReadLength(d, max).value.1)
    ensures Sound(Map(k, v, min, max), d)
  {
    if DecBody(Map(k, v, min, max), d).Some? {
      var n := ReadLength(d, max).value.0;
      SoundItems(n, max, d, Pairs(k, v, n));
      var items := DecAll(Pairs(k, v, n), ReadLength(d, max).value.1).value.0;
      assert |items| == 2 * n && |items| / 2 == n;
      assert DecBody(Map(k, v, min, max), d).value.0 == MapV(items);
    }
  }

  /** Every accepted byte string is the encoding of what it decodes to. */
  lemma {:induction false} DecodedEncodes(t: Ty, d: seq<byte>)
    ensures Sound(t, d)
    decreases Depth(t), 0
  {
    match t
    case Prim(code) => SoundPrim(code, d);
    case Unicode => SoundUnicode(d);
    case Enum(vs) => SoundEnum(vs, d);
    case Union(vs, tys) =>
      if d != [] && FindTag(vs, d[0]).Some? && FindTag(vs, d[0]).value < |tys| {
        DecodedEncodes(tys[FindTag(vs, d[0]).value], d[1..]);
      }
      SoundUnion(vs, tys, d);
    case Tuple(ts) =>
      if Restricted(ts).Some? {
        SoundRestricted(ts, d);
      } else {
        DecodedEncodesAll(ts, d);
        SoundTuple(ts, d);
      }
    case Struct(names, ts) =>
      DecodedEncodesAll(ts, d);
      SoundStruct(names, ts, d);
    case Array(e, n) =>
      DecodedEncodesAll(Copies(e, n), d);
      SoundArray(e, n, d);
    case List(e, min, max) =>
      if Flat(e) {
        SoundFlat(e, min, max, d);
      } else {
        if ReadLength(d, max).Some? {
          DecodedEncodesAll(Copies(e, ReadLength(d, max).value.0), ReadLength(d, max).value.1);
        }
        SoundList(e, min, max, d);
      }
    case Set(e, min, max) =>
      if ReadLength(d, max).Some? {
        DecodedEncodesAll(Copies(e, ReadLength(d, max).value.0), ReadLength(d, max).value.1);
      }
      SoundSet(e, min, max, d);
    case Map(k, v, min, max) =>
      if ReadLength(d, max).Some? {
        DecodedEncodesAll(Pairs(k, v, ReadLength(d, max).value.0), ReadLength(d, max).value.1);
      }
      SoundMap(k, v, min, max, d);
  }

  lemma {:induction false} DecodedEncodesAll(ts: seq<Ty>, d: seq<byte>)
    ensures SoundAll(ts, d)
    decreases DepthAll(ts), |ts| + 1
  {
    if ts != [] {
      DecodedEncodes(ts[0], d);
      if Dec(ts[0], d).Some? {
        DecodedEncodesAll(ts[1..], Dec(ts[0], d).value.1);
      }
      SoundCons(ts[0], ts[1..], d);
      assert [ts[0]] + ts[1..] == ts;
    }
  }

  lemma {:induction false} DecAllCons(t: Ty, ts: seq<Ty>, d: seq<byte>)
    ensures DecAll([t] + ts, d) ==
            if Dec(t, d).None? || DecAll(ts, Dec(t, d).value.1).None? then None
            else Some(([Dec(t, d).value.0] + DecAll(ts, Dec(t, d).value.1).value.0, DecAll(ts, Dec(t, d).value.1).value.1))
  {
    assert ([t] + ts)[1..] == ts;
  }

  lemma {:induction false} SoundCons(t: Ty, ts: seq<Ty>, d: seq<byte>)
    requires Sound(t, d) && (Dec(t, d).Some? ==> SoundAll(ts, Dec(t, d).value.1))
    ensures SoundAll([t] + ts, d)
  {
    DecAllCons(t, ts, d);
    if DecAll([t] + ts, d).Some? {
      var (v, rest) := Dec(t, d).value;
      var (vs, last) := DecAll(ts, rest).value;
      AllCons(t, ts, v, vs);
      ConcatAssociative(v.encoded, EncAll(ts, vs).value, last);
    }
  }

  lemma {:induction false} ConcatAssociative(a: seq<byte>, b: seq<byte>, c: seq<byte>)
    ensures a + (b + c) == a + b + c
  {
  }

  /** The pointwise functions over a list, unfolded once. */
  lemma {:induction false} AllCons(t: Ty, ts: seq<Ty>, v: Value, vs: seq<Value>)
    requires |ts| == |vs|
    ensures WellTypedAll([t] + ts, [v] + vs) <==> WellTyped(t, v) && WellTypedAll(ts, vs)
    ensures EncAll([t] + ts, [v] + vs) == Join(Enc(t, v), EncAll(ts, vs))
    ensures WellTyped(t, v) && WellTypedAll(ts, vs) ==>
              StampAll([t] + ts, [v] + vs) == [Stamp(t, v)] + StampAll(ts, vs)
  {
    assert ([t] + ts)[1..] == ts && ([v] + vs)[1..] == vs;
  }

  // ----- refreshing caches does not move a value in the canonical order

  lemma {:induction false} WellTypedAt(ts: seq<Ty>, vs: seq<Value>, i: nat)
    requires |ts| == |vs| && WellTypedAll(ts, vs) && i < |ts|
    ensures WellTyped(ts[i], vs[i]) && StampAll(ts, vs)[i] == Stamp(ts[i], vs[i])
  {
    if i > 0 {
      WellTypedAt(ts[1..], vs[1..], i - 1);
    }
  }

  /** A one-item tuple compares as its item. */
  lemma {:induction false} TupleRight(a: Value, b: Value)
    requires b.body.TupleV? && |b.body.items| == 1
    ensures Compare(a, b) == Compare(a, b.body.items[0])
    decreases a
  {
    if a.body.TupleV? && |a.body.items| == 1 {
      TupleRight(a.body.items[0], b);
    }
  }

  lemma {:induction false} CompareAllSame(xs: seq<Value>, ys: seq<Value>, xs': seq<Value>, ys': seq<Value>)
    requires |xs| == |xs'| && |ys| == |ys'|
    requires forall i :: 0 <= i < |xs| && i < |ys| ==> Compare(xs[i], ys[i]) == Compare(xs'[i], ys'[i])
    ensures CompareAll(xs, ys) == CompareAll(xs', ys')
    decreases |xs|
  {
    if xs != [] && ys != [] {
      assert Compare(xs[0], ys[0]) == Compare(xs'[0], ys'[0]);
      CompareAllSame(xs[1..], ys[1..], xs'[1..], ys'[1..]);
    }
  }

  lemma {:induction false} CompareFieldsSame(ns: seq<string>, xs: seq<Value>, ys: seq<Value>, xs': seq<Value>, ys': seq<Value>)
    requires |ns| == |xs| == |xs'| == |ys| == |ys'|
    requires forall i :: 0 <= i < |xs| ==> Compare(xs[i], ys[i]) == Compare(xs'[i], ys'[i])
    ensures CompareFields(ns, xs, ns, ys) == CompareFields(ns, xs', ns, ys')
    decreases |xs|
  {
    if xs != [] {
      assert Compare(xs[0], ys[0]) == Compare(xs'[0], ys'[0]);
      CompareFieldsSame(ns[1..], xs[1..], ys[1..], xs'[1..], ys'[1..]);
    }
  }

  /** Stamping keeps the comparison of two values of one type. */
  ghost predicate StampKeeps(t: Ty, a: Value, b: Value)
    requires WellTyped(t, a) && WellTyped(t, b)
  {
    Compare(Stamp(t, a), Stamp(t, b)) == Compare(a, b)
  }

  /** Position by position, the types of two item lists agree. */
  ghost predicate Aligned(ts: seq<Ty>, us: seq<Ty>) {
    forall i :: 0 <= i < |ts| && i < |us| ==> ts[i] == us[i]
  }

  lemma {:induction false} PairsAt(k: Ty, v: Ty, n: nat, i: nat)
    requires i < 2 * n
    ensures Pairs(k, v, n)[i] == if i % 2 == 0 then k else v
  {
    hide Depth, DepthAll, Max;
    var rest := Pairs(k, v, n - 1);
    assert Pairs(k, v, n) == [k, v] + rest;
    if i >= 2 {
      PairsAt(k, v, n - 1, i - 2);
      assert ([k, v] + rest)[i] == rest[i - 2];
      assert i % 2 == (i - 2) % 2;
    }
  }

  lemma {:induction false} PairsAligned(k: Ty, v: Ty, n: nat, m: nat)
    ensures Aligned(Pairs(k, v, n), Pairs(k, v, m))
  {
    forall i | 0 <= i < 2 * n && i < 2 * m ensures Pairs(k, v, n)[i] == Pairs(k, v, m)[i] {
      PairsAt(k, v, n, i);
      PairsAt(k, v, m, i);
    }
  }

  lemma {:induction false} ItemsKeepOrder(ts: seq<Ty>, us: seq<Ty>, xs: seq<Value>, ys: seq<Value>, names: seq<string>)
    requires |ts| == |xs| && |us| == |ys| && WellTypedAll(ts, xs) && WellTypedAll(us, ys) && Aligned(ts, us)
    ensures CompareAll(StampAll(ts, xs), StampAll(us, ys)) == CompareAll(xs, ys)
    ensures |names| == |ts| == |us| ==>
              CompareFields(names, StampAll(ts, xs), names, StampAll(us, ys)) == CompareFields(names, xs, names, ys)
    decreases DepthAll(ts), 1, 0
  {
    forall i | 0 <= i < |xs| && i < |ys| ensures Compare(StampAll(ts, xs)[i], StampAll(us, ys)[i]) == Compare(xs[i], ys[i]) {
      WellTypedAt(ts, xs, i);
      WellTypedAt(us, ys, i);
      StampKeepsOrder(ts[i], xs[i], ys[i]);
    }
    CompareAllSame(StampAll(ts, xs), StampAll(us, ys), xs, ys);
    if |names| == |ts| == |us| {
      CompareFieldsSame(names, StampAll(ts, xs), StampAll(us, ys), xs, ys);
    }
  }

  lemma {:induction false} StampKeepsUint64(t: Ty, v: Value)
    requires WellTyped(t, v)
    ensures Uint64(Stamp(t, v)) == Uint64(v)
  {
  }

  ghost predicate StructOf(names: seq<string>, a: Value) {
    a.body.StructV? && a.body.names == names && |a.body.items| == |names|
  }

  /** Comparing two structs of one type looks at their items, or at their tags. */
  lemma {:induction false} CompareStruct(names: seq<string>, a: Value, b: Value)
    requires StructOf(names, a) && StructOf(names, b)
    ensures NameTag(names) ==>
              Compare(a, b) == (if Uint64(a.body.items[1]).None? || Uint64(b.body.items[1]).None? then None
                                else Some(CompareNat(Uint64(a.body.items[1]).value, Uint64(b.body.items[1]).value)))
    ensures !NameTag(names) ==> Compare(a, b) == CompareFields(names, a.body.items, names, b.body.items)
  {
  }

  lemma {:induction false} CompareStructs(names: seq<string>, a: Value, b: Value, c: Value, d: Value)
    requires StructOf(names, a) && StructOf(names, b) && StructOf(names, c) && StructOf(names, d)
    requires CompareFields(names, a.body.items, names, b.body.items) == CompareFields(names, c.body.items, names, d.body.items)
    requires NameTag(names) ==>
               Uint64(a.body.items[1]) == Uint64(c.body.items[1]) && Uint64(b.body.items[1]) == Uint64(d.body.items[1])
    ensures Compare(a, b) == Compare(c, d)
  {
    CompareStruct(names, a, b);
    CompareStruct(names, c, d);
  }

  lemma {:induction false} CompareTuples(a: Value, b: Value, c: Value, d: Value)
    requires a.body.TupleV? && b.body.TupleV? && c.body.TupleV? && d.body.TupleV?
    requires |a.body.items| == |b.body.items| == |c.body.items| == |d.body.items|
    requires CompareAll(a.body.items, b.body.items) == CompareAll(c.body.items, d.body.items)
    requires |a.body.items| == 1 ==> Compare(a.body.items[0], b.body.items[0]) == Compare(c.body.items[0], d.body.items[0])
    ensures Compare(a, b) == Compare(c, d)
  {
    if |a.body.items| == 1 {
      TupleRight(a.body.items[0], b);
      TupleRight(c.body.items[0], d);
    }
  }

  lemma {:induction false} StampIs(t: Ty, a: Value)
    requires WellTyped(t, a)
    ensures Stamp(t, a).body == StampBody(t, a)
  {
  }

  lemma {:induction false} StampStruct(names: seq<string>, ts: seq<Ty>, a: Value)
    requires WellTyped(Struct(names, ts), a)
    ensures a.body.StructV? && a.body.names == names && |a.body.items| == |ts| == |names| && WellTypedAll(ts, a.body.items)
    ensures StampBody(Struct(names, ts), a) == StructV(names, StampAll(ts, a.body.items))
  {
  }

  lemma {:induction false} StampKeepsUint64At(ts: seq<Ty>, vs: seq<Value>, i: nat)
    requires |ts| == |vs| && WellTypedAll(ts, vs) && i < |ts|
    ensures Uint64(StampAll(ts, vs)[i]) == Uint64(vs[i])
  {
    WellTypedAt(ts, vs, i);
    StampKeepsUint64(ts[i], vs[i]);
  }

  lemma {:induction false} StampTuple(ts: seq<Ty>, a: Value)
    requires Restricted(ts).None? && WellTyped(Tuple(ts), a)
    ensures a.body.TupleV? && |a.body.items| == |ts| && WellTypedAll(ts, a.body.items)
    ensures StampBody(Tuple(ts), a) == TupleV(StampAll(ts, a.body.items))
  {
  }

  lemma {:induction false} StampUnion(vs: seq<Variant>, tys: seq<Ty>, a: Value)
    requires WellTyped(Union(vs, tys), a)
    ensures a.body.UnionV? && FindTag(vs, a.body.tag).Some? && FindTag(vs, a.body.tag).value < |tys|
    ensures WellTyped(tys[FindTag(vs, a.body.tag).value], a.body.inner)
    ensures StampBody(Union(vs, tys), a) ==
            UnionV(a.body.name, a.body.tag, Stamp(tys[FindTag(vs, a.body.tag).value], a.body.inner))
  {
  }

  /** The item list of a collection and its types. */
  ghost predicate Collection(t: Ty) {
    (t.Array? && t.elem != BYTE) || (t.List? && !Flat(t.elem)) || t.Set? || t.Map?
  }

  function ItemsOf(v: Value): seq<Value> {
    match v.body
    case ListV(items) => items
    case SetV(items) => items
    case MapV(items) => items
    case _ => []
  }

  function ItemTypes(t: Ty, n: nat): seq<Ty> {
    match t
    case Array(e, _) => Copies(e, n)
    case List(e, _, _) => Copies(e, n)
    case Set(e, _, _) => Copies(e, n)
    case Map(k, v, _, _) => Pairs(k, v, n / 2)
    case _ => []
  }

  ghost predicate KindOf(t: Ty, b: Body) {
    if t.Set? then b.SetV? else if t.Map? then b.MapV? else b.ListV?
  }

  lemma {:induction false} StampCollection(t: Ty, a: Value)
    requires Collection(t) && WellTyped(t, a)
    ensures |ItemTypes(t, |ItemsOf(a)|)| == |ItemsOf(a)| && WellTypedAll(ItemTypes(t, |ItemsOf(a)|), ItemsOf(a))
    ensures KindOf(t, a.body) && KindOf(t, Stamp(t, a).body)
    ensures ItemsOf(Stamp(t, a)) == StampAll(ItemTypes(t, |ItemsOf(a)|), ItemsOf(a))
  {
    StampIs(t, a);
  }

  lemma {:induction false} CompareCollections(t: Ty, a: Value, b: Value, c: Value, d: Value)
    requires KindOf(t, a.body) && KindOf(t, b.body) && KindOf(t, c.body) && KindOf(t, d.body)
    requires |ItemsOf(a)| == |ItemsOf(c)| && |ItemsOf(b)| == |ItemsOf(d)|
    requires CompareAll(ItemsOf(a), ItemsOf(b)) == CompareAll(ItemsOf(c), ItemsOf(d))
    ensures Compare(a, b) == Compare(c, d)
  {
  }

  lemma {:induction false} ItemTypesAligned(t: Ty, n: nat, m: nat)
    ensures Aligned(ItemTypes(t, n), ItemTypes(t, m))
  {
    if t.Map? {
      PairsAligned(t.key, t.val, n / 2, m / 2);
    }
  }

  lemma {:induction false} ItemTypesDepth(t: Ty, n: nat)
    requires Collection(t)
    ensures DepthAll(ItemTypes(t, n)) < Depth(t)
  {
  }

  lemma {:induction false} StampKeepsOrder(t: Ty, a: Value, b: Value)
    requires WellTyped(t, a) && WellTyped(t, b)
    ensures StampKeeps(t, a, b)
    decreases Depth(t), 0, 1
  {
    if Collection(t) {
      CollectionKeepsOrder(t, a, b);
    } else if t.Tuple? && Restricted(t.tys).None? {
      TupleKeepsOrder(t.tys, a, b);
    } else if t.Struct? {
      StructKeepsOrder(t.names, t.tys, a, b);
    } else if t.Union? {
      UnionKeepsOrder(t.variants, t.tys, a, b);
    } else {
      LeafKeepsOrder(t, a, b);
    }
  }

  ghost predicate Leaf(t: Ty) {
    !Collection(t) && !t.Struct? && !t.Union? && !(t.Tuple? && Restricted(t.tys).None?)
  }

  lemma {:induction false} LeafKeepsOrder(t: Ty, a: Value, b: Value)
    requires Leaf(t) && WellTyped(t, a) && WellTyped(t, b)
    ensures StampKeeps(t, a, b)
  {
  }

  lemma {:induction false} CollectionKeepsOrder(t: Ty, a: Value, b: Value)
    requires Collection(t) && WellTyped(t, a) && WellTyped(t, b)
    ensures StampKeeps(t, a, b)
    decreases Depth(t), 0, 0
  {
    StampCollection(t, a);
    StampCollection(t, b);
    ItemTypesAligned(t, |ItemsOf(a)|, |ItemsOf(b)|);
    ItemTypesDepth(t, |ItemsOf(a)|);
    ItemsKeepOrder(ItemTypes(t, |ItemsOf(a)|), ItemTypes(t, |ItemsOf(b)|), ItemsOf(a), ItemsOf(b), []);
    CompareCollections(t, Stamp(t, a), Stamp(t, b), a, b);
  }

  lemma {:induction false} TupleKeepsOrder(ts: seq<Ty>, a: Value, b: Value)
    requires Restricted(ts).None? && WellTyped(Tuple(ts), a) && WellTyped(Tuple(ts), b)
    ensures StampKeeps(Tuple(ts), a, b)
    decreases Depth(Tuple(ts)), 0, 0
  {
    StampTuple(ts, a);
    StampTuple(ts, b);
    StampIs(Tuple(ts), a);
    StampIs(Tuple(ts), b);
    ItemsKeepOrder(ts, ts, a.body.items, b.body.items, []);
    if |ts| == 1 {
      WellTypedAt(ts, a.body.items, 0);
      WellTypedAt(ts, b.body.items, 0);
      StampKeepsOrder(ts[0], a.body.items[0], b.body.items[0]);
    }
    CompareTuples(Stamp(Tuple(ts), a), Stamp(Tuple(ts), b), a, b);
  }

  lemma {:induction false} StructKeepsOrder(names: seq<string>, ts: seq<Ty>, a: Value, b: Value)
    requires WellTyped(Struct(names, ts), a) && WellTyped(Struct(names, ts), b)
    ensures StampKeeps(Struct(names, ts), a, b)
    decreases Depth(Struct(names, ts)), 0, 0
  {
    StampStruct(names, ts, a);
    StampStruct(names, ts, b);
    StampIs(Struct(names, ts), a);
    StampIs(Struct(names, ts), b);
    ItemsKeepOrder(ts, ts, a.body.items, b.body.items, names);
    if NameTag(names) {
      StampKeepsUint64At(ts, a.body.items, 1);
      StampKeepsUint64At(ts, b.body.items, 1);
    }
    CompareStructs(names, Stamp(Struct(names, ts), a), Stamp(Struct(names, ts), b), a, b);
  }

  lemma {:induction false} UnionKeepsOrder(vs: seq<Variant>, tys: seq<Ty>, a: Value, b: Value)
    requires WellTyped(Union(vs, tys), a) && WellTyped(Union(vs, tys), b)
    ensures StampKeeps(Union(vs, tys), a, b)
    decreases Depth(Union(vs, tys)), 0, 0
  {
    StampUnion(vs, tys, a);
    StampUnion(vs, tys, b);
    StampIs(Union(vs, tys), a);
    StampIs(Union(vs, tys), b);
    if a.body.tag == b.body.tag {
      StampKeepsOrder(tys[FindTag(vs, a.body.tag).value], a.body.inner, b.body.inner);
    }
  }
}
