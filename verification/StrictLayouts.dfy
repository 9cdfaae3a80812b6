/** The byte layouts that identifiers hash, tied to the strict codec: what is hashed
    for an input map is its decoded encoding, and type keys of decoded maps increase. */
module StrictLayouts {
  import opened Bytes
  import opened StrictTypes
  import opened StrictCodec
  import opened StrictRoundTrip
  import opened StrictOrder
  import opened StrictInputs
  import opened Wrappers
  import Operations
  import Symbols

  // ----- symbols as bytes

  /** The bytes of a symbolic string, given those of each digest. */
  function Spelled(s: seq<Symbols.Sym>, h: Symbols.Digest -> seq<byte>): seq<byte> {
    if s == [] then [] else (if s[0].B? then [s[0].b] else h(s[0].d)) + Spelled(s[1..], h)
  }

  lemma {:induction false} SpelledConcat(a: seq<Symbols.Sym>, b: seq<Symbols.Sym>, h: Symbols.Digest -> seq<byte>)
    ensures Spelled(a + b, h) == Spelled(a, h) + Spelled(b, h)
  {
    if a == [] {
      assert a + b == b;
    } else {
      var first := if a[0].B? then [a[0].b] else h(a[0].d);
      SpelledConcat(a[1..], b, h);
      assert (a + b)[1..] == a[1..] + b;
      assert Spelled(a + b, h) == first + (Spelled(a[1..], h) + Spelled(b, h));
    }
  }

  lemma {:induction false} SpelledPlain(bytes: seq<byte>, h: Symbols.Digest -> seq<byte>)
    ensures Spelled(Symbols.Plain(bytes), h) == bytes
  {
    if bytes != [] {
      SpelledPlain(bytes[1..], h);
      assert Symbols.Plain(bytes)[1..] == Symbols.Plain(bytes[1..]);
      assert bytes == [bytes[0]] + bytes[1..];
    }
  }

  lemma {:induction false} SpelledDigest(d: Symbols.Digest, h: Symbols.Digest -> seq<byte>)
    ensures Spelled([Symbols.D(d)], h) == h(d)
  {
    assert Spelled([Symbols.D(d)], h) == h(d) + Spelled([], h);
  }

  lemma {:induction false} SpelledRef(r: Operations.InputRef, h: Symbols.Digest -> seq<byte>)
    ensures Spelled(Operations.RefRecord(r), h) == h(r.op) + LittleEndian(r.ty, 2) + LittleEndian(r.no, 2)
  {
    var ty, no := Symbols.LE(r.ty, 2), Symbols.LE(r.no, 2);
    SpelledConcat([Symbols.D(r.op)] + ty, no, h);
    SpelledConcat([Symbols.D(r.op)], ty, h);
    SpelledDigest(r.op, h);
    SpelledPlain(LittleEndian(r.ty, 2), h);
    SpelledPlain(LittleEndian(r.no, 2), h);
  }

  // ----- the encoding of an output reference

  lemma {:induction false} ShortEncoded(v: Value, n: nat)
    requires WellTyped(Prim(2), v) && Short(v, n)
    ensures Enc(Prim(2), v) == Some(LittleEndian(n, 2))
  {
    var raw := RawNumber(2, v.body);
    assert Unwrap(v) == v;
    assert NumberBody(2, raw) == Filled(2, v.body);
    assert FromLittleEndian(raw) == n && |raw| == 2;
    WriteRead(raw);
  }

  lemma {:induction false} WrappedEncoded(t: Ty, v: Value)
    requires WellTyped(Tuple([t]), v)
    ensures v.body.TupleV? && |v.body.items| == 1 && Enc(Tuple([t]), v) == Enc(t, v.body.items[0])
  {
    hide Enc;
    Wrapped(t, v);
    OneEncoded(t, v);
  }

  lemma {:induction false} OneEncoded(t: Ty, v: Value)
    requires v.body.TupleV? && |v.body.items| == 1
    ensures Enc(Tuple([t]), v) == Enc(t, v.body.items[0])
  {
    var item := v.body.items[0];
    assert [t][1..] == [] && v.body.items[1..] == [];
    assert Restricted([t]).None?;
    assert EncAll([t], v.body.items) == Join(Enc(t, item), EncAll([t][1..], v.body.items[1..]));
    if Enc(t, item).Some? {
      assert Enc(t, item).value + [] == Enc(t, item).value;
    }
  }

  lemma {:induction false} IdEncoded(v: Value, op: seq<byte>)
    requires WellTyped(OP_ID, v) && v.body.TupleV? && |v.body.items| == 1 && v.body.items[0].body == Octets(op)
    ensures Enc(OP_ID, v) == Some(op)
  {
    Wrapped(Array(BYTE, 32), v);
    WrappedEncoded(Array(BYTE, 32), v);
  }

  lemma {:induction false} ThreeEncoded(ts: seq<Ty>, vs: seq<Value>, a: seq<byte>, b: seq<byte>, c: seq<byte>)
    requires |ts| == |vs| == 3 && Enc(ts[0], vs[0]) == Some(a) && Enc(ts[1], vs[1]) == Some(b) && Enc(ts[2], vs[2]) == Some(c)
    ensures EncAll(ts, vs) == Some(a + b + c)
  {
    hide Enc;
    var t1, v1 := ts[1..], vs[1..];
    var t2, v2 := t1[1..], v1[1..];
    assert t1[0] == ts[1] && v1[0] == vs[1] && t2[0] == ts[2] && v2[0] == vs[2];
    assert EncAll(t2[1..], v2[1..]) == Some([]);
    assert c + [] == c;
    assert EncAll(t2, v2) == Some(c);
    assert EncAll(t1, v1) == Some(b + c);
    assert a + (b + c) == a + b + c;
  }

  /** A reference is encoded as the 36 bytes that operations hash for it. */
  lemma {:induction false} OpoutEncoded(v: Value, r: Ref)
    requires WellTyped(OPOUT, v) && Parts(v, r)
    ensures Enc(OPOUT, v) == Some(r.op + LittleEndian(r.ty, 2) + LittleEndian(r.no, 2))
  {
    hide LittleEndian;
    OpoutShape(v);
    var items := v.body.items;
    IdEncoded(items[0], r.op);
    Wrapped(Prim(2), items[1]);
    WrappedEncoded(Prim(2), items[1]);
    ShortEncoded(items[1].body.items[0], r.ty);
    ShortEncoded(items[2], r.no);
    ThreeEncoded(FIELDS, items, r.op, LittleEndian(r.ty, 2), LittleEndian(r.no, 2));
    StructEncoded(v);
  }

  lemma {:induction false} StructEncoded(v: Value)
    requires v.body.StructV? && v.body.names == NAMES && |v.body.items| == 3
    ensures Enc(OPOUT, v) == EncAll(FIELDS, v.body.items)
  {
    assert Unwrap(v) == v;
  }

  // ----- input maps

  function RefIn(r: Operations.InputRef, h: Symbols.Digest -> seq<byte>): Ref {
    Ref(h(r.op), r.ty, r.no)
  }

  /** The alternating keys and values of a decoded map are these commitments. */
  ghost predicate Reads(items: seq<Value>, m: seq<Operations.Commit>, h: Symbols.Digest -> seq<byte>) {
    |items| == 2 * |m| && forall i :: 0 <= i < |m| ==> ReadsEntry(items[2 * i], items[2 * i + 1], m[i], h)
  }

  ghost predicate ReadsEntry(key: Value, val: Value, c: Operations.Commit, h: Symbols.Digest -> seq<byte>) {
    && Parts(key, RefIn(c.input, h))
    && val.body.TupleV? && |val.body.items| == 1 && val.body.items[0].body == Octets(h(c.op))
  }

  lemma {:induction false} EntryEncoded(key: Value, val: Value, c: Operations.Commit, h: Symbols.Digest -> seq<byte>)
    requires WellTyped(OPOUT, key) && WellTyped(OP_ID, val) && ReadsEntry(key, val, c, h)
    ensures Join(Enc(OPOUT, key), Enc(OP_ID, val)) == Some(Spelled(Operations.RefRecord(c.input) + [Symbols.D(c.op)], h))
  {
    hide Enc, Operations.RefRecord;
    OpoutEncoded(key, RefIn(c.input, h));
    IdEncoded(val, h(c.op));
    SpelledConcat(Operations.RefRecord(c.input), [Symbols.D(c.op)], h);
    SpelledRef(c.input, h);
    SpelledDigest(c.op, h);
  }

  lemma {:induction false} PairFirst(n: nat, items: seq<Value>)
    requires n > 0 && |items| == 2 * n && WellTypedAll(Pairs(OPOUT, OP_ID, n), items)
    ensures WellTyped(OPOUT, items[0]) && WellTyped(OP_ID, items[1]) && WellTypedAll(Pairs(OPOUT, OP_ID, n - 1), items[2..])
    ensures EncAll(Pairs(OPOUT, OP_ID, n), items) ==
            Join(Join(Enc(OPOUT, items[0]), Enc(OP_ID, items[1])), EncAll(Pairs(OPOUT, OP_ID, n - 1), items[2..]))
  {
    hide Enc, WellTyped;
    var ts, rest := Pairs(OPOUT, OP_ID, n), Pairs(OPOUT, OP_ID, n - 1);
    assert ts == [OPOUT, OP_ID] + rest;
    assert ts[1..] == [OP_ID] + rest && ts[1..][1..] == rest;
    assert items[1..][0] == items[1] && items[1..][1..] == items[2..];
    var a, b, c := Enc(OPOUT, items[0]), Enc(OP_ID, items[1]), EncAll(rest, items[2..]);
    assert EncAll(ts[1..], items[1..]) == Join(b, c);
    if a.Some? && b.Some? && c.Some? {
      assert a.value + (b.value + c.value) == a.value + b.value + c.value;
    }
  }

  lemma {:induction false} EntriesEncoded(items: seq<Value>, m: seq<Operations.Commit>, h: Symbols.Digest -> seq<byte>)
    requires |items| == 2 * |m| && WellTypedAll(Pairs(OPOUT, OP_ID, |m|), items) && Reads(items, m, h)
    ensures EncAll(Pairs(OPOUT, OP_ID, |m|), items) == Some(Spelled(Operations.InputMapRecord(m), h))
    decreases m
  {
    hide Enc, WellTyped, WellTypedAll, Pairs, Operations.RefRecord, ReadsEntry;
    if m == [] {
      NothingEncoded(items);
    } else {
      var rest := items[2..];
      PairFirst(|m|, items);
      assert ReadsEntry(items[2 * 0], items[2 * 0 + 1], m[0], h);
      EntryEncoded(items[0], items[1], m[0], h);
      forall i | 0 <= i < |m[1..]| ensures ReadsEntry(rest[2 * i], rest[2 * i + 1], m[1..][i], h) {
        assert ReadsEntry(items[2 * (i + 1)], items[2 * (i + 1) + 1], m[i + 1], h);
      }
      EntriesEncoded(rest, m[1..], h);
      SpelledConcat(Operations.RefRecord(m[0].input) + [Symbols.D(m[0].op)], Operations.InputMapRecord(m[1..]), h);
    }
  }

  lemma {:induction false} NothingEncoded(items: seq<Value>)
    requires items == []
    ensures EncAll(Pairs(OPOUT, OP_ID, 0), items) == Some([])
  {
  }

  /** The preimage of a bundle id spells the very bytes that the input map was decoded from. */
  lemma {:induction false} BundleHashesItsMap(d: seq<byte>, m: seq<Operations.Commit>, h: Symbols.Digest -> seq<byte>)
    requires Decode(INPUT_MAP, d).Some? && Decode(INPUT_MAP, d).value.body.MapV?
    requires Reads(Decode(INPUT_MAP, d).value.body.items, m, h)
    ensures Spelled(Symbols.LE(|m|, 2) + Operations.InputMapRecord(m), h) == d
  {
    hide Dec, WellTypedAll, Increasing, Operations.InputMapRecord, Pairs, EncAll, Reads;
    DecodedEncodes(INPUT_MAP, d);
    var v := Decode(INPUT_MAP, d).value;
    MapFacts(v, m, h);
    EntriesEncoded(v.body.items, m, h);
    SpelledConcat(Symbols.LE(|m|, 2), Operations.InputMapRecord(m), h);
    SpelledPlain(LittleEndian(|m|, 2), h);
  }

  lemma {:induction false} MapFacts(v: Value, m: seq<Operations.Commit>, h: Symbols.Digest -> seq<byte>)
    requires WellTyped(INPUT_MAP, v) && v.body.MapV? && Reads(v.body.items, m, h)
    ensures |v.body.items| == 2 * |m| && WellTypedAll(Pairs(OPOUT, OP_ID, |m|), v.body.items)
    ensures Enc(INPUT_MAP, v) == Join(Some(LittleEndian(|m|, 2)), EncAll(Pairs(OPOUT, OP_ID, |m|), v.body.items))
  {
    hide Pairs, WellTypedAll, EncAll, Increasing, ReadsEntry;
    assert Unwrap(v) == v;
  }

  // ----- maps keyed by types

  /** A type id: a wrapped 16-bit number. */
  const TYPE_ID: Ty := Tuple([Prim(2)])

  lemma {:induction false} TypeIdReads(v: Value)
    requires WellTyped(TYPE_ID, v)
    ensures v.body.TupleV? && |v.body.items| == 1 && v.body.items[0].body.Number? && v.body.items[0].body.unsigned.Some?
    ensures NumberOf(Some(v)) == v.body.items[0].body.unsigned && NumberOf(Some(v)).value < U16
  {
    Wrapped(Prim(2), v);
    ShortNumber(v.body.items[0]);
    UnwrapOne(v);
  }

  lemma {:induction false} TypeIdsCompare(a: Value, b: Value)
    requires WellTyped(TYPE_ID, a) && WellTyped(TYPE_ID, b)
    ensures NumberOf(Some(a)).Some? && NumberOf(Some(b)).Some?
    ensures Less(a, b) <==> NumberOf(Some(a)).value < NumberOf(Some(b)).value
  {
    TypeIdReads(a);
    TypeIdReads(b);
    CompareWrapped(a, b);
  }

  /** The type ids of a decoded map, as of its globals or assignments, are strictly increasing. */
  lemma {:induction false} DecodedTypesIncrease(val: Ty, min: u64, max: u64, d: seq<byte>)
    requires Decode(Map(TYPE_ID, val, min, max), d).Some?
    ensures var v := Decode(Map(TYPE_ID, val, min, max), d).value;
            && v.body.MapV?
            && var keys := Keys(v.body.items);
               && (forall i :: 0 <= i < |keys| ==> NumberOf(Some(keys[i])).Some? && NumberOf(Some(keys[i])).value < U16)
               && (forall i, j :: 0 <= i < j < |keys| ==> NumberOf(Some(keys[i])).value < NumberOf(Some(keys[j])).value)
  {
    hide NumberOf, Dec, Enc;
    DecodedEncodes(Map(TYPE_ID, val, min, max), d);
    var v := Decode(Map(TYPE_ID, val, min, max), d).value;
    MapKeys(val, min, max, v);
    hide WellTyped;
    var keys := Keys(v.body.items);
    forall i | 0 <= i < |keys| ensures NumberOf(Some(keys[i])).Some? && NumberOf(Some(keys[i])).value < U16 {
      TypeIdReads(keys[i]);
    }
    forall i, j | 0 <= i < j < |keys| ensures NumberOf(Some(keys[i])).value < NumberOf(Some(keys[j])).value {
      IncreasingEverywhere(TYPE_ID, keys, i, j);
      TypeIdsCompare(keys[i], keys[j]);
    }
  }

  lemma {:induction false} MapKeys(val: Ty, min: u64, max: u64, v: Value)
    requires WellTyped(Map(TYPE_ID, val, min, max), v)
    ensures v.body.MapV? && Increasing(Keys(v.body.items))
    ensures forall k :: 0 <= k < |Keys(v.body.items)| ==> WellTyped(TYPE_ID, Keys(v.body.items)[k])
  {
    MapParts(TYPE_ID, val, min, max, v);
    hide WellTyped, WellTypedAll, Pairs, Increasing;
    var items := v.body.items;
    forall k | 0 <= k < |Keys(items)| ensures WellTyped(TYPE_ID, Keys(items)[k]) {
      KeyTyped(TYPE_ID, val, items, k);
    }
  }

  lemma {:induction false} MapParts(k: Ty, val: Ty, min: u64, max: u64, v: Value)
    requires WellTyped(Map(k, val, min, max), v)
    ensures v.body.MapV? && |v.body.items| % 2 == 0 && min <= |v.body.items| / 2 <= max && Increasing(Keys(v.body.items))
    ensures WellTypedAll(Pairs(k, val, |v.body.items| / 2), v.body.items)
  {
    hide WellTypedAll, Pairs, Increasing;
  }
}
