/** The reader and the writer of the codec, as they move through their buffers. */
module StrictPrograms {
  import opened Bytes
  import opened StrictTypes
  import opened StrictCodec
  import opened StrictRoundTrip
  import opened StrictReread
  import opened StrictOrder
  import opened Wrappers

  // ----- reading item lists from the left

  /** The first `i` items have been read from `d`, leaving `rest`. */
  ghost predicate Prefix(ts: seq<Ty>, i: nat, d: seq<byte>, items: seq<Value>, rest: seq<byte>) {
    i <= |ts| && DecAll(ts[..i], d) == Some((items, rest))
  }

  lemma {:induction false} PrefixStarts(ts: seq<Ty>, d: seq<byte>)
    ensures Prefix(ts, 0, d, [], d)
  {
  }

  lemma {:induction false} PrefixEnds(ts: seq<Ty>, d: seq<byte>, items: seq<Value>, rest: seq<byte>)
    requires Prefix(ts, |ts|, d, items, rest)
    ensures DecAll(ts, d) == Some((items, rest))
  {
    assert ts[..|ts|] == ts;
  }

  /** Reading a list is reading its front and then its back. */
  lemma {:induction false} DecAllSplit(ts: seq<Ty>, us: seq<Ty>, d: seq<byte>)
    ensures DecAll(ts + us, d) ==
            (match DecAll(ts, d)
             case None => None
             case Some((xs, rest)) =>
               match DecAll(us, rest)
               case None => None
               case Some((ys, last)) => Some((xs + ys, last)))
  {
    hide Dec;
    if ts == [] {
      assert ts + us == us;
      if DecAll(us, d).Some? { assert [] + DecAll(us, d).value.0 == DecAll(us, d).value.0; }
    } else {
      var t, tail := ts[0], ts[1..];
      assert ts == [t] + tail && ts + us == [t] + (tail + us);
      DecAllCons(t, tail, d);
      DecAllCons(t, tail + us, d);
      if Dec(t, d).Some? {
        var (v, rest) := Dec(t, d).value;
        DecAllSplit(tail, us, rest);
        if DecAll(tail + us, rest).Some? {
          var xs := DecAll(tail, rest).value.0;
          var ys := DecAll(us, DecAll(tail, rest).value.1).value.0;
          assert [v] + (xs + ys) == [v] + xs + ys;
        }
      }
    }
  }

  lemma {:induction false} DecAllOne(t: Ty, d: seq<byte>)
    ensures DecAll([t], d) == if Dec(t, d).None? then None else Some(([Dec(t, d).value.0], Dec(t, d).value.1))
  {
    DecAllCons(t, [], d);
    assert [t] + [] == [t];
    if Dec(t, d).Some? { assert [Dec(t, d).value.0] + [] == [Dec(t, d).value.0]; }
  }

  /** One more item read, or a failure that fails the whole list. */
  lemma {:induction false} PrefixStep(ts: seq<Ty>, i: nat, d: seq<byte>, items: seq<Value>, rest: seq<byte>)
    requires i < |ts| && Prefix(ts, i, d, items, rest)
    ensures Dec(ts[i], rest).None? ==> DecAll(ts, d).None?
    ensures Dec(ts[i], rest).Some? ==> Prefix(ts, i + 1, d, items + [Dec(ts[i], rest).value.0], Dec(ts[i], rest).value.1)
  {
    assert ts[..i + 1] == ts[..i] + [ts[i]];
    DecAllSplit(ts[..i], [ts[i]], d);
    DecAllOne(ts[i], rest);
    assert ts == ts[..i + 1] + ts[i + 1..];
    DecAllSplit(ts[..i + 1], ts[i + 1..], d);
  }

  /** What has been read is the front of what the whole list would give. */
  lemma {:induction false} PrefixIsFront(ts: seq<Ty>, i: nat, d: seq<byte>, items: seq<Value>, rest: seq<byte>)
    requires Prefix(ts, i, d, items, rest)
    ensures |items| == i
    ensures DecAll(ts, d).Some? ==> items == DecAll(ts, d).value.0[..i]
  {
    assert ts == ts[..i] + ts[i..];
    DecAllSplit(ts[..i], ts[i..], d);
  }

  // ----- the duplicate check of sets and map keys

  ghost predicate AllRead(e: Ty, items: seq<Value>) {
    forall k :: 0 <= k < |items| ==> WellTyped(e, items[k]) && Enc(e, items[k]) == Some(items[k].encoded)
  }

  /** A repeated encoding cannot occur in an increasing list: the `seen` check
      refuses nothing that the order check would accept. */
  lemma {:induction false} DuplicateIsUnordered(e: Ty, items: seq<Value>, i: nat, j: nat)
    requires AllRead(e, items) && i < j < |items| && items[i].encoded == items[j].encoded
    ensures !Increasing(items)
  {
    if Increasing(items) {
      NoItemTwice(e, items, i, j);
    }
  }

  lemma {:induction false} ReadItems(ts: seq<Ty>, d: seq<byte>, i: nat)
    requires DecAll(ts, d).Some? && i < |ts|
    ensures var vs := DecAll(ts, d).value.0; WellTyped(ts[i], vs[i]) && Enc(ts[i], vs[i]) == Some(vs[i].encoded)
  {
    DecodedEncodesAll(ts, d);
    var vs := DecAll(ts, d).value.0;
    WellTypedAt(ts, vs, i);
    StampEncodes(ts[i], vs[i]);
  }

  lemma {:induction false} StampEncodes(t: Ty, v: Value)
    requires WellTyped(t, v) && Stamp(t, v) == v
    ensures Enc(t, v) == Some(v.encoded)
  {
    EncodedDecodes(t, v, []);
  }

  lemma {:induction false} ReadCopies(e: Ty, n: nat, d: seq<byte>)
    requires DecAll(Copies(e, n), d).Some?
    ensures AllRead(e, DecAll(Copies(e, n), d).value.0)
  {
    var vs := DecAll(Copies(e, n), d).value.0;
    forall i | 0 <= i < |vs| ensures WellTyped(e, vs[i]) && Enc(e, vs[i]) == Some(vs[i].encoded) {
      ReadItems(Copies(e, n), d, i);
    }
  }

  lemma {:induction false} ReadKeys(k: Ty, w: Ty, n: nat, d: seq<byte>)
    requires DecAll(Pairs(k, w, n), d).Some?
    ensures AllRead(k, Keys(DecAll(Pairs(k, w, n), d).value.0))
  {
    var vs := DecAll(Pairs(k, w, n), d).value.0;
    forall i | 0 <= i < |Keys(vs)| ensures WellTyped(k, Keys(vs)[i]) && Enc(k, Keys(vs)[i]) == Some(Keys(vs)[i].encoded) {
      KeyType(k, w, n, i);
      ReadItems(Pairs(k, w, n), d, 2 * i);
    }
  }

  // ----- the reader

  method CheckText(first: Ty, restTy: Ty, raw: seq<byte>) returns (ok: bool)
    ensures ok <==> RestrictedText(first, restTy, raw)
  {
    if raw == [] || !HasTag(first, raw[0]) {
      return false;
    }
    for i := 1 to |raw|
      invariant forall j :: 1 <= j < i ==> HasTag(restTy, raw[j])
    {
      if !HasTag(restTy, raw[i]) {
        return false;
      }
    }
    return true;
  }

  /** Exactly the encodings of the items are in `seen`. */
  ghost predicate Recorded(seen: set<seq<byte>>, items: seq<Value>) {
    forall s :: s in seen <==> exists j :: 0 <= j < |items| && items[j].encoded == s
  }

  lemma {:induction false} RecordedMore(seen: set<seq<byte>>, items: seq<Value>, v: Value)
    requires Recorded(seen, items)
    ensures Recorded(seen + {v.encoded}, items + [v])
  {
    var more := items + [v];
    forall s | s in seen + {v.encoded} ensures exists j :: 0 <= j < |more| && more[j].encoded == s {
      if s == v.encoded {
        assert more[|items|].encoded == s;
      } else {
        var j :| 0 <= j < |items| && items[j].encoded == s;
        assert more[j].encoded == s;
      }
    }
  }

  /** The next item, repeated or out of order, refuses the whole list. */
  lemma {:induction false} RefusedItem(e: Ty, items: seq<Value>, all: seq<Value>, seen: set<seq<byte>>)
    requires |items| < |all| && items == all[..|items|] && AllRead(e, all) && Recorded(seen, items)
    requires all[|items|].encoded in seen || (items != [] && !Less(items[|items| - 1], all[|items|]))
    ensures !Increasing(all)
  {
    var i := |items|;
    if all[i].encoded in seen {
      var j :| 0 <= j < |items| && items[j].encoded == all[i].encoded;
      DuplicateIsUnordered(e, all, j, i);
    } else {
      assert all[i - 1] == items[i - 1];
    }
  }

  /** Accepting the next item keeps the list increasing. */
  lemma {:induction false} IncreasingMore(items: seq<Value>, v: Value)
    requires Increasing(items) && (items != [] ==> Less(items[|items| - 1], v))
    ensures Increasing(items + [v])
  {
  }

  lemma {:induction false} SetRefused(e: Ty, n: nat, d: seq<byte>, items: seq<Value>, rest: seq<byte>, v: Value, seen: set<seq<byte>>)
    requires |items| < n && Prefix(Copies(e, n), |items| + 1, d, items + [v], rest) && Recorded(seen, items)
    requires v.encoded in seen || (items != [] && !Less(items[|items| - 1], v))
    ensures DecAll(Copies(e, n), d).Some? ==> !Increasing(DecAll(Copies(e, n), d).value.0)
  {
    hide Prefix, Copies, DecAll, Increasing, Less, Recorded;
    if DecAll(Copies(e, n), d).Some? {
      var all := DecAll(Copies(e, n), d).value.0;
      PrefixIsFront(Copies(e, n), |items| + 1, d, items + [v], rest);
      assert (items + [v])[..|items|] == items && all[..|items| + 1][..|items|] == all[..|items|];
      assert all[|items|] == all[..|items| + 1][|items|];
      ReadCopies(e, n, d);
      assert items == all[..|items|] && all[|items|] == v;
      RefusedItem(e, items, all, seen);
    }
  }

  /** A reader's answer agrees with what the bytes decode to. */
  ghost predicate Agrees<T(!new)>(spec: Option<(T, seq<byte>)>, r: Option<T>, rest: seq<byte>) {
    (r.Some? <==> spec.Some?) && (r.Some? ==> spec.value == (r.value, rest))
  }

  class Decoder {
    const data: seq<byte>
    var pos: nat

    ghost predicate Valid() reads this { pos <= |data| }

    ghost function Rest(): seq<byte>
      requires Valid()
      reads this
    {
      data[pos..]
    }

    constructor (data: seq<byte>)
      ensures Valid() && this.data == data && pos == 0
    {
      this.data := data;
      pos := 0;
    }

    /** A short read consumes what is left. */
    method Raw(size: nat) returns (r: Option<seq<byte>>)
      requires Valid()
      modifies this`pos
      ensures Valid() && Agrees(Take(old(Rest()), size), r, Rest())
    {
      if size > |data| - pos {
        pos := |data|;
        return None;
      }
      assert data[pos..pos + size] == data[pos..][..size] && data[pos + size..] == data[pos..][size..];
      r := Some(data[pos..pos + size]);
      pos := pos + size;
    }

    method Length(max: nat) returns (r: Option<nat>)
      requires Valid()
      modifies this`pos
      ensures Valid() && Agrees(ReadLength(old(Rest()), max), r, Rest())
    {
      var raw := Raw(LengthWidth(max));
      if raw.None? || FromLittleEndian(raw.value) > max {
        return None;
      }
      r := Some(FromLittleEndian(raw.value));
    }

    method DecodeType(t: Ty) returns (r: Option<Value>)
      requires Valid()
      modifies this`pos
      ensures Valid() && Agrees(Dec(t, old(Rest())), r, Rest())
      decreases Depth(t), 1
    {
      var start := pos;
      var body := DecodeTypeBody(t);
      if body.None? {
        return None;
      }
      CacheIsPrefix(data, start, pos);
      assert DecBody(t, data[start..]).Some?;
      r := Some(Value(body.value, data[start..pos]));
    }

    method DecodeTypeBody(t: Ty) returns (r: Option<Body>)
      requires Valid()
      modifies this`pos
      ensures Valid() && Agrees(DecBody(t, old(Rest())), r, Rest())
      ensures r.Some? ==> pos >= old(pos)
      decreases Depth(t), 0
    {
      match t
      case Prim(code) => r := DecodePrimitive(code);
      case Unicode => r := DecodeUnicode();
      case Enum(vs) => r := DecodeEnum(vs);
      case Union(vs, tys) => r := DecodeUnion(vs, tys);
      case Tuple(ts) => r := DecodeTuple(ts);
      case Struct(names, ts) => r := DecodeStruct(names, ts);
      case Array(e, n) => r := DecodeArray(e, n);
      case List(e, min, max) => r := DecodeList(e, min, max);
      case Set(e, min, max) => r := DecodeSet(e, min, max);
      case Map(k, v, min, max) => r := DecodeMap(k, v, min, max);
    }

    method DecodePrimitive(code: byte) returns (r: Option<Body>)
      requires Valid()
      modifies this`pos
      ensures Valid() && Agrees(DecBody(Prim(code), old(Rest())), r, Rest())
      ensures r.Some? ==> pos >= old(pos)
    {
      if code == 0 {
        return Some(Unit);
      }
      var size := PrimitiveSize(code);
      if size == 0 {
        return None;
      }
      var raw := Raw(size);
      if raw.None? || RefusedZero(code, raw.value) {
        return None;
      }
      r := Some(NumberBody(code, raw.value));
    }

    method DecodeUnicode() returns (r: Option<Body>)
      requires Valid()
      modifies this`pos
      ensures Valid() && Agrees(DecBody(Unicode, old(Rest())), r, Rest())
      ensures r.Some? ==> pos >= old(pos)
    {
      ghost var d := Rest();
      var first := Raw(1);
      if first.None? || LeadWidth(first.value[0]) == 0 {
        return None;
      }
      var width := LeadWidth(first.value[0]);
      var raw := first.value;
      if width > 1 {
        var more := Raw(width - 1);
        if more.None? {
          return None;
        }
        raw := raw + more.value;
      }
      assert raw == d[..width] && Rest() == d[width..];
      if !ValidUtf8(raw) {
        return None;
      }
      r := Some(Str(raw, raw));
    }

    method DecodeEnum(vs: seq<Variant>) returns (r: Option<Body>)
      requires Valid()
      modifies this`pos
      ensures Valid() && Agrees(DecBody(Enum(vs), old(Rest())), r, Rest())
      ensures r.Some? ==> pos >= old(pos)
    {
      var tag := Raw(1);
      if tag.None? {
        return None;
      }
      for i := 0 to |vs|
        invariant forall j :: 0 <= j < i ==> vs[j].tag != tag.value[0]
      {
        if vs[i].tag == tag.value[0] {
          return Some(EnumV(vs[i].name, tag.value[0]));
        }
      }
      return None;
    }

    method DecodeUnion(vs: seq<Variant>, tys: seq<Ty>) returns (r: Option<Body>)
      requires Valid()
      modifies this`pos
      ensures Valid() && Agrees(DecBody(Union(vs, tys), old(Rest())), r, Rest())
      ensures r.Some? ==> pos >= old(pos)
      decreases Depth(Union(vs, tys)), 0, 0
    {
      var tag := Raw(1);
      if tag.None? || FindTag(vs, tag.value[0]).None? || FindTag(vs, tag.value[0]).value >= |tys| {
        return None;
      }
      var i := FindTag(vs, tag.value[0]).value;
      var inner := DecodeType(tys[i]);
      if inner.None? {
        return None;
      }
      r := Some(UnionV(vs[i].name, tag.value[0], inner.value));
    }

    /** Items of the given types, one after the other. */
    method DecodeRefs(ts: seq<Ty>) returns (r: Option<seq<Value>>)
      requires Valid()
      modifies this`pos
      ensures Valid() && Agrees(DecAll(ts, old(Rest())), r, Rest())
      ensures r.Some? ==> pos >= old(pos)
      decreases DepthAll(ts), 2
    {
      ghost var d := Rest();
      var items: seq<Value> := [];
      PrefixStarts(ts, d);
      for i := 0 to |ts|
        invariant Valid() && pos >= old(pos) && Prefix(ts, i, d, items, Rest())
      {
        PrefixStep(ts, i, d, items, Rest());
        var item := DecodeType(ts[i]);
        if item.None? {
          return None;
        }
        items := items + [item.value];
      }
      PrefixEnds(ts, d, items, Rest());
      r := Some(items);
    }

    method DecodeTuple(ts: seq<Ty>) returns (r: Option<Body>)
      requires Valid()
      modifies this`pos
      ensures Valid() && Agrees(DecBody(Tuple(ts), old(Rest())), r, Rest())
      ensures r.Some? ==> pos >= old(pos)
      decreases Depth(Tuple(ts)), 0, 0
    {
      if Restricted(ts).Some? {
        var (restTy, min, max) := Restricted(ts).value;
        r := DecodeRestricted(ts[0], restTy, min, max);
      } else {
        var items := DecodeRefs(ts);
        r := if items.None? then None else Some(TupleV(items.value));
      }
    }

    method DecodeRestricted(first: Ty, restTy: Ty, min: nat, max: nat) returns (r: Option<Body>)
      requires Valid()
      modifies this`pos
      ensures Valid() && Agrees(DecRestricted(first, restTy, min, max, old(Rest())), r, Rest())
      ensures r.Some? ==> pos >= old(pos)
    {
      var length := Length(max);
      if length.None? || length.value < min {
        return None;
      }
      var raw := Raw(length.value);
      if raw.None? {
        return None;
      }
      var ok := CheckText(first, restTy, raw.value);
      r := if ok then Some(Str(raw.value, raw.value)) else None;
    }

    method DecodeStruct(names: seq<string>, ts: seq<Ty>) returns (r: Option<Body>)
      requires Valid()
      modifies this`pos
      ensures Valid() && Agrees(DecBody(Struct(names, ts), old(Rest())), r, Rest())
      ensures r.Some? ==> pos >= old(pos)
      decreases Depth(Struct(names, ts)), 0, 0
    {
      if |names| != |ts| {
        return None;
      }
      var items := DecodeRefs(ts);
      r := if items.None? then None else Some(StructV(names, items.value));
    }

    method DecodeArray(e: Ty, n: nat) returns (r: Option<Body>)
      requires Valid()
      modifies this`pos
      ensures Valid() && Agrees(DecBody(Array(e, n), old(Rest())), r, Rest())
      ensures r.Some? ==> pos >= old(pos)
      decreases Depth(Array(e, n)), 0, 0
    {
      if e == BYTE {
        var raw := Raw(n);
        return if raw.None? then None else Some(Octets(raw.value));
      }
      var items := DecodeRefs(Copies(e, n));
      r := if items.None? then None else Some(ListV(items.value));
    }

    method DecodeFlat(e: Ty, n: nat) returns (r: Option<Body>)
      requires Valid()
      modifies this`pos
      ensures Valid() && Agrees(DecFlat(e, n, old(Rest())), r, Rest())
      ensures r.Some? ==> pos >= old(pos)
    {
      var raw := Raw(n);
      if raw.None? || !FlatContent(e, raw.value) {
        return None;
      }
      r := Some(FlatBody(e, raw.value));
    }

    method DecodeList(e: Ty, min: u64, max: u64) returns (r: Option<Body>)
      requires Valid()
      modifies this`pos
      ensures Valid() && Agrees(DecBody(List(e, min, max), old(Rest())), r, Rest())
      ensures r.Some? ==> pos >= old(pos)
      decreases Depth(List(e, min, max)), 0, 0
    {
      var length := Length(max);
      if length.None? || length.value < min {
        return None;
      }
      if Flat(e) {
        r := DecodeFlat(e, length.value);
      } else {
        var items := DecodeRefs(Copies(e, length.value));
        r := if items.None? then None else Some(ListV(items.value));
      }
    }

    method DecodeSet(e: Ty, min: u64, max: u64) returns (r: Option<Body>)
      requires Valid()
      modifies this`pos
      ensures Valid() && Agrees(DecBody(Set(e, min, max), old(Rest())), r, Rest())
      ensures r.Some? ==> pos >= old(pos)
      decreases Depth(Set(e, min, max)), 0, 0
    {
      var length := Length(max);
      if length.None? || length.value < min {
        return None;
      }
      var items := DecodeItems(e, length.value);
      r := if items.None? then None else Some(SetV(items.value));
    }

    /** The loop of a set: every item must be new and above the previous one. */
    method DecodeItems(e: Ty, n: nat) returns (r: Option<seq<Value>>)
      requires Valid()
      modifies this`pos
      ensures Valid() && (r.Some? ==> pos >= old(pos))
      ensures r.Some? <==> DecAll(Copies(e, n), old(Rest())).Some? && Increasing(DecAll(Copies(e, n), old(Rest())).value.0)
      ensures r.Some? ==> DecAll(Copies(e, n), old(Rest())) == Some((r.value, Rest()))
      decreases Depth(e), 3
    {
      ghost var d := Rest();
      ghost var ts := Copies(e, n);
      var items: seq<Value> := [];
      var seen: set<seq<byte>> := {};
      PrefixStarts(ts, d);
      for index := 0 to n
        invariant Valid() && pos >= old(pos) && |items| == index
        invariant Prefix(ts, index, d, items, Rest())
        invariant Recorded(seen, items) && Increasing(items)
      {
        PrefixStep(ts, index, d, items, Rest());
        var item := DecodeType(e);
        if item.None? {
          return None;
        }
        var encoded := item.value.encoded;
        if encoded in seen || (index > 0 && !Less(items[index - 1], item.value)) {
          SetRefused(e, n, d, items, Rest(), item.value, seen);
          return None;
        }
        RecordedMore(seen, items, item.value);
        IncreasingMore(items, item.value);
        seen := seen + {encoded};
        items := items + [item.value];
      }
      PrefixEnds(ts, d, items, Rest());
      r := Some(items);
    }

    method DecodeMap(k: Ty, v: Ty, min: u64, max: u64) returns (r: Option<Body>)
      requires Valid()
      modifies this`pos
      ensures Valid() && Agrees(DecBody(Map(k, v, min, max), old(Rest())), r, Rest())
      ensures r.Some? ==> pos >= old(pos)
      decreases Depth(Map(k, v, min, max)), 0, 0
    {
      var length := Length(max);
      if length.None? || length.value < min {
        return None;
      }
      var items := DecodeEntries(k, v, length.value);
      r := if items.None? then None else Some(MapV(items.value));
    }

    /** The loop of a map: every key must be new and above the previous one. */
    method DecodeEntries(k: Ty, v: Ty, n: nat) returns (r: Option<seq<Value>>)
      requires Valid()
      modifies this`pos
      ensures Valid() && (r.Some? ==> pos >= old(pos))
      ensures r.Some? <==> DecAll(Pairs(k, v, n), old(Rest())).Some? && Increasing(Keys(DecAll(Pairs(k, v, n), old(Rest())).value.0))
      ensures r.Some? ==> DecAll(Pairs(k, v, n), old(Rest())) == Some((r.value, Rest()))
      decreases Max(Depth(k), Depth(v)), 3
    {
      hide Entries, EntriesOf, Prefix, Recorded, Increasing, Pairs, Keys, DecAll, Dec, Less;
      ghost var d := Rest();
      var entries: seq<Value> := [];
      var keys: seq<Value> := [];
      var seen: set<seq<byte>> := {};
      NoEntries(k, v, n, d);
      for index := 0 to n
        invariant Valid() && pos >= old(pos) && |keys| == index
        invariant Entries(k, v, n, d, entries, keys, seen, Rest())
      {
        KeyRead(k, v, n, d, entries, keys, seen, Rest());
        var key := DecodeType(k);
        if key.None? {
          return None;
        }
        ghost var rest := Rest();
        if key.value.encoded in seen || (index > 0 && !Less(keys[index - 1], key.value)) {
          EntryRefused(k, v, n, d, entries, keys, seen, rest, key.value);
          return None;
        }
        ValueRead(k, v, n, d, entries, keys, seen, rest, key.value);
        var val := DecodeType(v);
        if val.None? {
          return None;
        }
        seen := seen + {key.value.encoded};
        keys := keys + [key.value];
        entries := entries + [key.value, val.value];
      }
      EntriesRead(k, v, n, d, entries, keys, seen, Rest());
      r := Some(entries);
    }
  }

  /** The entries read so far: a prefix of all, with increasing keys, their encodings noted. */
  ghost predicate Entries(k: Ty, v: Ty, n: nat, d: seq<byte>, entries: seq<Value>, keys: seq<Value>, seen: set<seq<byte>>, rest: seq<byte>) {
    && |keys| <= n && Prefix(Pairs(k, v, n), 2 * |keys|, d, entries, rest)
    && EntriesOf(entries, keys) && Recorded(seen, keys) && Increasing(keys)
  }

  lemma {:induction false} NoEntries(k: Ty, v: Ty, n: nat, d: seq<byte>)
    ensures Entries(k, v, n, d, [], [], {}, d)
  {
    PrefixStarts(Pairs(k, v, n), d);
  }

  lemma {:induction false} KeyRead(k: Ty, v: Ty, n: nat, d: seq<byte>, entries: seq<Value>, keys: seq<Value>, seen: set<seq<byte>>, rest: seq<byte>)
    requires Entries(k, v, n, d, entries, keys, seen, rest) && |keys| < n
    ensures Dec(k, rest).None? ==> DecAll(Pairs(k, v, n), d).None?
    ensures Dec(k, rest).Some? ==> Prefix(Pairs(k, v, n), 2 * |keys| + 1, d, entries + [Dec(k, rest).value.0], Dec(k, rest).value.1)
  {
    hide Prefix, DecAll, Dec;
    EntryTypes(k, v, n, |keys|);
    PrefixStep(Pairs(k, v, n), 2 * |keys|, d, entries, rest);
  }

  lemma {:induction false} EntryRefused(k: Ty, v: Ty, n: nat, d: seq<byte>, entries: seq<Value>, keys: seq<Value>, seen: set<seq<byte>>, rest: seq<byte>, key: Value)
    requires |keys| < n && exists before :: Entries(k, v, n, d, entries, keys, seen, before)
    requires Prefix(Pairs(k, v, n), 2 * |keys| + 1, d, entries + [key], rest)
    requires key.encoded in seen || (keys != [] && !Less(keys[|keys| - 1], key))
    ensures DecAll(Pairs(k, v, n), d).Some? ==> !Increasing(Keys(DecAll(Pairs(k, v, n), d).value.0))
  {
    MapRefused(k, v, n, d, entries, keys, rest, key, seen);
  }

  lemma {:induction false} ValueRead(k: Ty, v: Ty, n: nat, d: seq<byte>, entries: seq<Value>, keys: seq<Value>, seen: set<seq<byte>>, rest: seq<byte>, key: Value)
    requires |keys| < n && exists before :: Entries(k, v, n, d, entries, keys, seen, before)
    requires Prefix(Pairs(k, v, n), 2 * |keys| + 1, d, entries + [key], rest)
    requires keys == [] || Less(keys[|keys| - 1], key)
    ensures Dec(v, rest).None? ==> DecAll(Pairs(k, v, n), d).None?
    ensures Dec(v, rest).Some? ==>
              Entries(k, v, n, d, entries + [key, Dec(v, rest).value.0], keys + [key], seen + {key.encoded}, Dec(v, rest).value.1)
  {
    hide Prefix, DecAll, Dec, Pairs, Less;
    EntryTypes(k, v, n, |keys|);
    PrefixStep(Pairs(k, v, n), 2 * |keys| + 1, d, entries + [key], rest);
    if Dec(v, rest).Some? {
      var val := Dec(v, rest).value.0;
      assert entries + [key] + [val] == entries + [key, val];
      RecordedMore(seen, keys, key);
      IncreasingMore(keys, key);
    }
  }

  lemma {:induction false} EntriesRead(k: Ty, v: Ty, n: nat, d: seq<byte>, entries: seq<Value>, keys: seq<Value>, seen: set<seq<byte>>, rest: seq<byte>)
    requires Entries(k, v, n, d, entries, keys, seen, rest) && |keys| == n
    ensures DecAll(Pairs(k, v, n), d) == Some((entries, rest)) && Increasing(Keys(entries))
  {
    hide DecAll;
    PrefixEnds(Pairs(k, v, n), d, entries, rest);
    KeysOfEntries(entries, keys);
  }

  lemma {:induction false} EntryTypes(k: Ty, v: Ty, n: nat, i: nat)
    requires i < n
    ensures Pairs(k, v, n)[2 * i] == k && Pairs(k, v, n)[2 * i + 1] == v
  {
    hide Pairs;
    PairsAt(k, v, n, 2 * i);
    PairsAt(k, v, n, 2 * i + 1);
  }

  /** `keys` are the even positions of `entries`. */
  ghost predicate EntriesOf(entries: seq<Value>, keys: seq<Value>) {
    |entries| == 2 * |keys| && forall i :: 0 <= i < |keys| ==> entries[2 * i] == keys[i]
  }

  lemma {:induction false} KeysOfEntries(entries: seq<Value>, keys: seq<Value>)
    requires EntriesOf(entries, keys)
    ensures Keys(entries) == keys
  {
  }

  lemma {:induction false} MapRefused(k: Ty, v: Ty, n: nat, d: seq<byte>, entries: seq<Value>, keys: seq<Value>, rest: seq<byte>, key: Value,
                   seen: set<seq<byte>>)
    requires |keys| < n && EntriesOf(entries, keys) && Recorded(seen, keys)
    requires Prefix(Pairs(k, v, n), 2 * |keys| + 1, d, entries + [key], rest)
    requires key.encoded in seen || (keys != [] && !Less(keys[|keys| - 1], key))
    ensures DecAll(Pairs(k, v, n), d).Some? ==> !Increasing(Keys(DecAll(Pairs(k, v, n), d).value.0))
  {
    if DecAll(Pairs(k, v, n), d).Some? {
      var all := DecAll(Pairs(k, v, n), d).value.0;
      var i := |keys|;
      PrefixIsFront(Pairs(k, v, n), 2 * i + 1, d, entries + [key], rest);
      forall j | 0 <= j < i ensures keys[j] == Keys(all)[..i][j] {
        assert all[2 * j] == (entries + [key])[2 * j];
      }
      assert keys == Keys(all)[..i];
      assert Keys(all)[i] == all[2 * i] == (entries + [key])[2 * i];
      ReadKeys(k, v, n, d);
      RefusedItem(k, keys, Keys(all), seen);
    }
  }

  lemma {:induction false} CacheIsPrefix(data: seq<byte>, start: nat, end: nat)
    requires start <= end <= |data|
    ensures data[start..][..|data[start..]| - |data[end..]|] == data[start..end]
  {
  }
}
