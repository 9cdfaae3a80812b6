/** The order of canonical collections, kind by kind, down to the bytes: which of two
    values comes first, and so which byte strings sets and maps of references have. */
module StrictSorting {
  import opened Bytes
  import opened StrictTypes
  import opened StrictCodec
  import opened StrictRoundTrip
  import opened StrictReread
  import opened StrictOrder
  import opened StrictInputs
  import opened StrictLayouts
  import opened StrictShape
  import opened Wrappers

  // ----- bytes

  /** The strings agree up to position `k`, where the first has the smaller byte. */
  ghost predicate SmallerAt(a: seq<byte>, b: seq<byte>, k: int) {
    0 <= k < |a| && k < |b| && a[..k] == b[..k] && a[k] < b[k]
  }

  /** A proper prefix, or smaller at the first byte that differs. */
  ghost predicate BytesBelow(a: seq<byte>, b: seq<byte>) {
    a < b || exists k :: SmallerAt(a, b, k)
  }

  lemma {:induction false} BelowTail(a: seq<byte>, b: seq<byte>)
    requires a != [] && b != [] && a[0] == b[0]
    ensures BytesBelow(a, b) <==> BytesBelow(a[1..], b[1..])
  {
    var c, d := a[1..], b[1..];
    assert a == [a[0]] + c && b == [b[0]] + d;
    if c < d {
      assert b[..|a|] == a;
    }
    if k :| SmallerAt(c, d, k) {
      assert a[..k + 1] == [a[0]] + c[..k] && b[..k + 1] == [b[0]] + d[..k];
      assert SmallerAt(a, b, k + 1);
    }
    if a < b {
      assert d[..|c|] == b[1..|a|] == c;
    }
    if k :| SmallerAt(a, b, k) {
      assert k > 0;
      assert c[..k - 1] == a[1..k] && d[..k - 1] == b[1..k];
      assert a[1..k] == a[..k][1..] && b[1..k] == b[..k][1..];
      assert SmallerAt(c, d, k - 1);
    }
  }

  lemma {:induction false} HeadsDecide(a: seq<byte>, b: seq<byte>)
    requires a != [] && b != [] && a[0] != b[0]
    ensures BytesBelow(a, b) <==> a[0] < b[0]
  {
    if a[0] < b[0] {
      assert SmallerAt(a, b, 0);
    }
    if k :| SmallerAt(a, b, k) {
      if k > 0 {
        assert a[..k][0] == b[..k][0];
      }
    }
  }

  /** Byte strings compare as dictionary words. */
  lemma {:induction false} BytesSorted(a: seq<byte>, b: seq<byte>)
    ensures CompareBytes(a, b) < 0 <==> BytesBelow(a, b)
    ensures CompareBytes(a, b) == 0 <==> a == b
  {
    if a != [] && b != [] {
      if a[0] == b[0] {
        BytesSorted(a[1..], b[1..]);
        BelowTail(a, b);
        assert a == [a[0]] + a[1..] && b == [b[0]] + b[1..];
      } else {
        HeadsDecide(a, b);
      }
    }
  }

  // ----- values without parts

  /** The two values stand at one place of the order. */
  ghost predicate Level(v: Value, w: Value) {
    Compare(v, w) == Some(0)
  }

  /** Byte strings and texts: as dictionary words. */
  lemma {:induction false} StringsSorted(v: Value, w: Value)
    requires (v.body.Octets? && w.body.Octets?) || (v.body.Str? && w.body.Str?)
    ensures var a, b := if v.body.Octets? then v.body.raw else v.body.text, if w.body.Octets? then w.body.raw else w.body.text;
            (Less(v, w) <==> BytesBelow(a, b)) && (Level(v, w) <==> a == b)
  {
    if v.body.Octets? {
      BytesSorted(v.body.raw, w.body.raw);
    } else {
      BytesSorted(v.body.text, w.body.text);
    }
  }

  /** The number that the bytes of a wide integer stand for, least significant first; code 0x40 to 0x7f is signed. */
  ghost function Wide(code: byte, raw: seq<byte>): int {
    if 64 <= code < 128 then Signed(raw) else FromLittleEndian(raw)
  }

  /** Numbers: by value; wide ones, whose value is only in their bytes, when code and width agree. */
  lemma {:induction false} NumbersSorted(v: Value, w: Value)
    requires v.body.Number? && w.body.Number?
    ensures v.body.unsigned.Some? && w.body.unsigned.Some? ==>
              && (Less(v, w) <==> v.body.unsigned.value < w.body.unsigned.value)
              && (Level(v, w) <==> v.body.unsigned == w.body.unsigned)
    ensures v.body.unsigned.None? && w.body.unsigned.None? && v.body.signed.Some? && w.body.signed.Some? ==>
              && (Less(v, w) <==> v.body.signed.value < w.body.signed.value)
              && (Level(v, w) <==> v.body.signed == w.body.signed)
    ensures v.body.unsigned.None? && v.body.signed.None? ==>
              && (Less(v, w) <==> v.body.prim == w.body.prim && |v.body.raw| == |w.body.raw| && Wide(v.body.prim, v.body.raw) < Wide(v.body.prim, w.body.raw))
              && (Level(v, w) <==> v.body.prim == w.body.prim && |v.body.raw| == |w.body.raw| && Wide(v.body.prim, v.body.raw) == Wide(v.body.prim, w.body.raw))
  {
    if v.body.raw != [] { TopBit(v.body.raw); }
    if w.body.raw != [] { TopBit(w.body.raw); }
  }

  /** Enumerations: by tag. Unions: by tag, then by content. */
  lemma {:induction false} TagsSorted(v: Value, w: Value)
    ensures v.body.EnumV? && w.body.EnumV? ==>
              (Less(v, w) <==> v.body.tag < w.body.tag) && (Level(v, w) <==> v.body.tag == w.body.tag)
    ensures v.body.UnionV? && w.body.UnionV? ==>
              && (Less(v, w) <==> v.body.tag < w.body.tag || (v.body.tag == w.body.tag && Less(v.body.inner, w.body.inner)))
              && (Level(v, w) <==> v.body.tag == w.body.tag && Level(v.body.inner, w.body.inner))
  {
  }

  // ----- values with parts

  /** All before item `k` are level. */
  ghost predicate LevelUpTo(xs: seq<Value>, ys: seq<Value>, k: int) {
    0 <= k <= |xs| && k <= |ys| && forall i :: 0 <= i < k ==> Level(xs[i], ys[i])
  }

  ghost predicate LessAt(xs: seq<Value>, ys: seq<Value>, k: int) {
    LevelUpTo(xs, ys, k) && k < |xs| && k < |ys| && Less(xs[k], ys[k])
  }

  /** Smaller at the first item that is not level, or shorter with all items level. */
  ghost predicate ItemsBelow(xs: seq<Value>, ys: seq<Value>) {
    (exists k :: LessAt(xs, ys, k)) || (|xs| < |ys| && LevelUpTo(xs, ys, |xs|))
  }

  ghost predicate ItemsLevel(xs: seq<Value>, ys: seq<Value>) {
    |xs| == |ys| && LevelUpTo(xs, ys, |xs|)
  }

  lemma {:induction false} LevelTail(xs: seq<Value>, ys: seq<Value>, k: nat)
    requires xs != [] && ys != [] && k < |xs| && k < |ys|
    ensures LevelUpTo(xs, ys, k + 1) <==> Level(xs[0], ys[0]) && LevelUpTo(xs[1..], ys[1..], k)
  {
    hide Level;
    if Level(xs[0], ys[0]) && LevelUpTo(xs[1..], ys[1..], k) {
      forall i | 0 <= i < k + 1 ensures Level(xs[i], ys[i]) {
        assert i > 0 ==> Level(xs[1..][i - 1], ys[1..][i - 1]);
      }
    }
    if LevelUpTo(xs, ys, k + 1) {
      forall i | 0 <= i < k ensures Level(xs[1..][i], ys[1..][i]) {
        assert Level(xs[i + 1], ys[i + 1]);
      }
    }
  }

  lemma {:induction false} ItemsTail(xs: seq<Value>, ys: seq<Value>)
    requires xs != [] && ys != [] && Level(xs[0], ys[0])
    ensures ItemsBelow(xs, ys) <==> ItemsBelow(xs[1..], ys[1..])
    ensures ItemsLevel(xs, ys) <==> ItemsLevel(xs[1..], ys[1..])
  {
    hide LevelUpTo, Compare;
    var us, ws := xs[1..], ys[1..];
    if |xs| <= |ys| { LevelTail(xs, ys, |us|); }
    if k :| LessAt(us, ws, k) {
      LevelTail(xs, ys, k) by { LevelRange(us, ws, k); }
      LevelRange(us, ws, k);
      assert LessAt(xs, ys, k + 1);
    }
    if k :| LessAt(xs, ys, k) {
      LevelRange(xs, ys, k);
      assert k != 0;
      LevelTail(xs, ys, k - 1);
      assert LessAt(us, ws, k - 1);
    }
  }

  lemma {:induction false} LevelRange(xs: seq<Value>, ys: seq<Value>, k: int)
    requires LevelUpTo(xs, ys, k)
    ensures 0 <= k <= |xs| && k <= |ys|
  {
  }

  lemma {:induction false} FirstDecides(xs: seq<Value>, ys: seq<Value>)
    requires xs != [] && ys != [] && !Level(xs[0], ys[0])
    ensures ItemsBelow(xs, ys) <==> Less(xs[0], ys[0])
    ensures !ItemsLevel(xs, ys)
  {
    hide Compare;
    var x, y := xs[0], ys[0];
    if Less(x, y) {
      assert LessAt(xs, ys, 0);
    }
    if k :| LessAt(xs, ys, k) {
      assert k == 0 || Level(x, y);
    }
  }

  lemma {:induction false} ItemsSorted(xs: seq<Value>, ys: seq<Value>)
    ensures CompareAll(xs, ys).Some? && CompareAll(xs, ys).value < 0 <==> ItemsBelow(xs, ys)
    ensures CompareAll(xs, ys) == Some(0) <==> ItemsLevel(xs, ys)
  {
    hide Compare;
    if xs != [] && ys != [] {
      if Level(xs[0], ys[0]) {
        ItemsSorted(xs[1..], ys[1..]);
        ItemsTail(xs, ys);
      } else {
        FirstDecides(xs, ys);
      }
    }
  }

  ghost predicate Bare(v: Value) {
    !(v.body.TupleV? && |v.body.items| == 1)
  }

  /** A tuple of one item stands where its item stands. */
  lemma {:induction false} SinglesSorted(v: Value, w: Value)
    ensures !Bare(v) ==> (Less(v, w) <==> Less(v.body.items[0], w)) && (Level(v, w) <==> Level(v.body.items[0], w))
    ensures Bare(v) && !Bare(w) ==> (Less(v, w) <==> Less(v, w.body.items[0])) && (Level(v, w) <==> Level(v, w.body.items[0]))
  {
  }

  /** Lists, sets and tuples: by the first item that differs, else the shorter first. */
  lemma {:induction false} CollectionsSorted(v: Value, w: Value)
    requires Bare(v) && Bare(w)
    requires (v.body.TupleV? && w.body.TupleV?) || (v.body.ListV? && w.body.ListV?) || (v.body.SetV? && w.body.SetV?)
    ensures Less(v, w) <==> ItemsBelow(v.body.items, w.body.items)
    ensures Level(v, w) <==> ItemsLevel(v.body.items, w.body.items)
  {
    hide CompareAll, ItemsBelow, ItemsLevel;
    ItemsSorted(v.body.items, w.body.items);
  }

  /** Maps: the smaller first; those of one size by keys and values in turn. */
  lemma {:induction false} MapsSorted(v: Value, w: Value)
    requires v.body.MapV? && w.body.MapV?
    ensures Less(v, w) <==> |v.body.items| < |w.body.items| || (|v.body.items| == |w.body.items| && ItemsBelow(v.body.items, w.body.items))
    ensures Level(v, w) <==> ItemsLevel(v.body.items, w.body.items)
  {
    hide CompareAll, ItemsBelow;
    ItemsSorted(v.body.items, w.body.items);
  }

  lemma {:induction false} FieldsSorted(names: seq<string>, xs: seq<Value>, ys: seq<Value>)
    requires |names| == |xs| == |ys|
    ensures CompareFields(names, xs, names, ys) == CompareAll(xs, ys)
  {
    hide Compare;
    if names != [] {
      FieldsSorted(names[1..], xs[1..], ys[1..]);
    }
  }

  /** Structs of one type: those of a name and a tag by the tag, all others by the first field that differs. */
  lemma {:induction false} StructsSorted(v: Value, w: Value)
    requires v.body.StructV? && w.body.StructV? && v.body.names == w.body.names
    requires |v.body.names| == |v.body.items| == |w.body.items|
    ensures v.body.names == ["name", "tag"] ==>
              var a, b := v.body.items[1], w.body.items[1];
              && (Less(v, w) <==> a.body.Number? && b.body.Number? && a.body.unsigned.Some? && b.body.unsigned.Some?
                                  && a.body.unsigned.value < b.body.unsigned.value)
              && (Level(v, w) <==> a.body.Number? && b.body.Number? && a.body.unsigned.Some? && a.body.unsigned == b.body.unsigned)
    ensures v.body.names != ["name", "tag"] ==>
              && (Less(v, w) <==> ItemsBelow(v.body.items, w.body.items))
              && (Level(v, w) <==> ItemsLevel(v.body.items, w.body.items))
  {
    hide ItemsBelow, ItemsLevel, CompareFields;
    ItemsSorted(v.body.items, w.body.items);
    FieldsSorted(v.body.names, v.body.items, w.body.items);
    var names := v.body.names;
    assert names == ["name", "tag"] <==> |names| == 2 && names[0] == "name" && names[1] == "tag";
  }

  // ----- output references

  /** By operation id, byte for byte, then by type, then by number. */
  ghost predicate RefBelow(r: Ref, s: Ref) {
    BytesBelow(r.op, s.op) || (r.op == s.op && (r.ty < s.ty || (r.ty == s.ty && r.no < s.no)))
  }

  lemma {:induction false} PartsSorted(x: Value, y: Value, r: Ref, s: Ref)
    requires Parts(x, r) && Parts(y, s)
    ensures var a, b := x.body.items, y.body.items;
            && (Less(a[0], b[0]) <==> BytesBelow(r.op, s.op)) && (Level(a[0], b[0]) <==> r.op == s.op)
            && (Less(a[1], b[1]) <==> r.ty < s.ty) && (Level(a[1], b[1]) <==> r.ty == s.ty)
            && (Less(a[2], b[2]) <==> r.no < s.no) && (Level(a[2], b[2]) <==> r.no == s.no)
  {
    hide Compare, BytesBelow;
    var a, b := x.body.items, y.body.items;
    SinglesSorted(a[0], b[0]);
    SinglesSorted(a[0].body.items[0], b[0]);
    StringsSorted(a[0].body.items[0], b[0].body.items[0]);
    SinglesSorted(a[1], b[1]);
    SinglesSorted(a[1].body.items[0], b[1]);
    NumbersSorted(a[1].body.items[0], b[1].body.items[0]);
    NumbersSorted(a[2], b[2]);
  }

  lemma {:induction false} ThreeBelow(a: seq<Value>, b: seq<Value>)
    requires |a| == |b| == 3
    ensures ItemsBelow(a, b) <==>
            Less(a[0], b[0]) || (Level(a[0], b[0]) && (Less(a[1], b[1]) || (Level(a[1], b[1]) && Less(a[2], b[2]))))
  {
    hide Compare;
    if Less(a[0], b[0]) { assert LessAt(a, b, 0); }
    if Level(a[0], b[0]) && Less(a[1], b[1]) { assert LessAt(a, b, 1); }
    if Level(a[0], b[0]) && Level(a[1], b[1]) && Less(a[2], b[2]) { assert LessAt(a, b, 2); }
  }

  /** Of two decoded references the one with the smaller operation id, type, number comes first. */
  lemma {:induction false} RefsSorted(x: Value, y: Value, r: Ref, s: Ref)
    requires Parts(x, r) && Parts(y, s)
    ensures Less(x, y) <==> RefBelow(r, s)
  {
    hide Less, BytesBelow, ItemsBelow, Level;
    PartsSorted(x, y, r, s);
    ThreeBelow(x.body.items, y.body.items);
    assert NAMES != ["name", "tag"];
    StructsSorted(x, y);
  }

  // ----- which byte strings are sets and maps

  lemma {:induction false} StampedRises(k: Ty, ts: seq<Ty>, vs: seq<Value>, i: nat, j: nat)
    requires |ts| == |vs| && WellTypedAll(ts, vs) && i < |ts| && j < |ts| && ts[i] == k && ts[j] == k
    ensures Less(StampAll(ts, vs)[i], StampAll(ts, vs)[j]) <==> Less(vs[i], vs[j])
  {
    WellTypedAt(ts, vs, i);
    WellTypedAt(ts, vs, j);
    StampKeepsOrder(k, vs[i], vs[j]);
  }

  lemma {:induction false} StampedIncreases(e: Ty, vs: seq<Value>)
    requires WellTypedAll(Copies(e, |vs|), vs)
    ensures Increasing(StampAll(Copies(e, |vs|), vs)) <==> Increasing(vs)
  {
    hide WellTypedAll, StampAll, Less;
    var ts := Copies(e, |vs|);
    var stamped := StampAll(ts, vs);
    forall i | 1 <= i < |vs| ensures Less(stamped[i - 1], stamped[i]) <==> Less(vs[i - 1], vs[i]) {
      StampedRises(e, ts, vs, i - 1, i);
    }
  }

  /** The encodings of items after their number are decoded as a set exactly when the items rise. */
  lemma {:induction false} SetDecodes(e: Ty, min: u64, max: u64, vs: seq<Value>)
    requires min <= |vs| <= max && WellTypedAll(Copies(e, |vs|), vs)
    ensures EncAll(Copies(e, |vs|), vs).Some?
    ensures Decode(Set(e, min, max), LittleEndian(|vs|, LengthWidth(max)) + EncAll(Copies(e, |vs|), vs).value).Some? <==> Increasing(vs)
  {
    var ts, n := Copies(e, |vs|), |vs|;
    EncodedDecodesAll(ts, vs, []);
    hide EncAll, DecAll, WellTypedAll, StampAll, ReadLength, WriteLength, Less, Copies, Increasing;
    ItemsBack(n, max, ts, vs, []);
    LengthIs(n, max);
    var body := EncAll(ts, vs).value;
    var d := LittleEndian(n, LengthWidth(max)) + body;
    assert d + [] == d && body + [] == body;
    StampedIncreases(e, vs);
    SetFrom(e, min, max, n, d, body, StampAll(ts, vs));
  }

  lemma {:induction false} LengthIs(n: nat, max: nat)
    requires n <= max
    ensures WriteLength(n, max) == Some(LittleEndian(n, LengthWidth(max)))
  {
  }

  lemma {:induction false} SetFrom(e: Ty, min: u64, max: u64, n: nat, d: seq<byte>, body: seq<byte>, items: seq<Value>)
    requires ReadLength(d, max) == Some((n, body)) && min <= n && DecAll(Copies(e, n), body) == Some((items, []))
    ensures Decode(Set(e, min, max), d).Some? <==> Increasing(items)
  {
    hide ReadLength, DecAll, Increasing, Copies, Depth;
    assert DecBody(Set(e, min, max), d) == if Increasing(items) then Some((SetV(items), [])) else None;
    WholeBody(Set(e, min, max), d);
  }

  lemma {:induction false} WholeBody(t: Ty, d: seq<byte>)
    ensures Decode(t, d).Some? <==> DecBody(t, d).Some? && DecBody(t, d).value.1 == []
  {
    hide DecBody;
  }

  /** The same for the keys of a map. */
  lemma {:induction false} MapDecodes(k: Ty, w: Ty, min: u64, max: u64, vs: seq<Value>)
    requires |vs| % 2 == 0 && min <= |vs| / 2 <= max && WellTypedAll(Pairs(k, w, |vs| / 2), vs)
    ensures EncAll(Pairs(k, w, |vs| / 2), vs).Some?
    ensures Decode(Map(k, w, min, max), LittleEndian(|vs| / 2, LengthWidth(max)) + EncAll(Pairs(k, w, |vs| / 2), vs).value).Some?
            <==> forall i :: 1 <= i < |vs| / 2 ==> Less(vs[2 * i - 2], vs[2 * i])
  {
    var n := |vs| / 2;
    var ts := Pairs(k, w, n);
    EncodedDecodesAll(ts, vs, []);
    hide EncAll, DecAll, WellTypedAll, StampAll, ReadLength, WriteLength, Less, Pairs, Increasing, Keys;
    ItemsBack(n, max, ts, vs, []);
    LengthIs(n, max);
    var body := EncAll(ts, vs).value;
    var d := LittleEndian(n, LengthWidth(max)) + body;
    assert d + [] == d && body + [] == body;
    var stamped := StampAll(ts, vs);
    forall i | 1 <= i < n ensures Less(stamped[2 * i - 2], stamped[2 * i]) <==> Less(vs[2 * i - 2], vs[2 * i]) {
      KeyType(k, w, n, i - 1);
      KeyType(k, w, n, i);
      StampedRises(k, ts, vs, 2 * i - 2, 2 * i);
    }
    IncreasingKeys(stamped, n);
    MapFrom(k, w, min, max, n, d, body, stamped);
  }

  lemma {:induction false} MapFrom(k: Ty, w: Ty, min: u64, max: u64, n: nat, d: seq<byte>, body: seq<byte>, items: seq<Value>)
    requires ReadLength(d, max) == Some((n, body)) && min <= n && DecAll(Pairs(k, w, n), body) == Some((items, []))
    ensures Decode(Map(k, w, min, max), d).Some? <==> Increasing(Keys(items))
  {
    hide ReadLength, DecAll, Increasing, Pairs, Keys, Depth;
    assert DecBody(Map(k, w, min, max), d) == if Increasing(Keys(items)) then Some((MapV(items), [])) else None;
    WholeBody(Map(k, w, min, max), d);
  }

  // ----- sets and maps of references

  ghost predicate FitRef(r: Ref) {
    |r.op| == 32 && r.ty < 65536 && r.no < 65536
  }

  function TwoBytes(n: nat): seq<byte> {
    [n % 256, n / 256 % 256]
  }

  lemma {:induction false} TwoBytesAre(n: nat)
    ensures LittleEndian(n, 2) == TwoBytes(n)
  {
    assert LittleEndian(n / 256, 1) == [n / 256 % 256] + LittleEndian(n / 256 / 256, 0);
  }

  /** References one after the other, 36 bytes each. */
  function RefsBytes(refs: seq<Ref>): seq<byte> {
    if refs == [] then [] else refs[0].op + TwoBytes(refs[0].ty) + TwoBytes(refs[0].no) + RefsBytes(refs[1..])
  }

  ghost predicate Rising(refs: seq<Ref>) {
    forall i :: 1 <= i < |refs| ==> RefBelow(refs[i - 1], refs[i])
  }

  function NumberValue(n: nat): Value {
    Value(Number(2, LittleEndian(n, 2), Some(n), None), [])
  }

  function RefValue(r: Ref): Value {
    Value(StructV(NAMES, [IdValue(r.op), Value(TupleV([NumberValue(r.ty)]), []), NumberValue(r.no)]), [])
  }

  function IdValue(op: seq<byte>): Value {
    Value(TupleV([Value(Octets(op), [])]), [])
  }

  lemma {:induction false} NumberTyped(n: nat)
    requires n < 65536
    ensures WellTyped(Prim(2), NumberValue(n))
  {
    Pow256Widths();
    ReadWritten(n, 2);
    hide LittleEndian, FromLittleEndian;
    assert |LittleEndian(n, 2)| == 2;
    assert LittleEndian(n, 2) != [];
  }

  lemma {:induction false} OneTyped(t: Ty, v: Value)
    requires WellTyped(t, v)
    ensures WellTyped(Tuple([t]), Value(TupleV([v]), []))
  {
    var w := Value(TupleV([v]), []);
    assert Restricted([t]).None?;
    assert WellTypedAll([t], [v]) by {
      assert [t][0] == t && [v][0] == v && [t][1..] == [];
    }
  }

  lemma {:induction false} IdTyped(op: seq<byte>)
    requires |op| == 32
    ensures WellTyped(OP_ID, IdValue(op))
  {
    OneTyped(Array(BYTE, 32), Value(Octets(op), []));
  }

  lemma {:induction false} ThreeTyped(ts: seq<Ty>, vs: seq<Value>)
    requires |ts| == |vs| == 3 && WellTyped(ts[0], vs[0]) && WellTyped(ts[1], vs[1]) && WellTyped(ts[2], vs[2])
    ensures WellTypedAll(ts, vs)
  {
    hide WellTyped;
    var t1, v1 := ts[1..], vs[1..];
    var t2, v2 := t1[1..], v1[1..];
    assert t1[0] == ts[1] && v1[0] == vs[1] && t2[0] == ts[2] && v2[0] == vs[2];
    assert WellTypedAll(t2[1..], v2[1..]);
    assert WellTypedAll(t2, v2);
    assert WellTypedAll(t1, v1);
  }

  lemma {:induction false} RefTyped(r: Ref)
    requires FitRef(r)
    ensures WellTyped(OPOUT, RefValue(r)) && Parts(RefValue(r), r)
    ensures Enc(OPOUT, RefValue(r)) == Some(r.op + TwoBytes(r.ty) + TwoBytes(r.no))
  {
    hide LittleEndian;
    IdTyped(r.op);
    NumberTyped(r.ty);
    NumberTyped(r.no);
    OneTyped(Prim(2), NumberValue(r.ty));
    ThreeTyped(FIELDS, [IdValue(r.op), Value(TupleV([NumberValue(r.ty)]), []), NumberValue(r.no)]);
    OpoutEncoded(RefValue(r), r);
    TwoBytesAre(r.ty);
    TwoBytesAre(r.no);
  }

  lemma {:induction false} RefValuesSorted(r: Ref, s: Ref)
    requires FitRef(r) && FitRef(s)
    ensures Less(RefValue(r), RefValue(s)) <==> RefBelow(r, s)
  {
    RefTyped(r);
    RefTyped(s);
    RefsSorted(RefValue(r), RefValue(s), r, s);
  }

  function RefValues(refs: seq<Ref>): (vs: seq<Value>)
    ensures |vs| == |refs| && forall i :: 0 <= i < |vs| ==> vs[i] == RefValue(refs[i])
  {
    if refs == [] then [] else [RefValue(refs[0])] + RefValues(refs[1..])
  }

  lemma {:induction false} RefsEncoded(refs: seq<Ref>)
    requires forall i :: 0 <= i < |refs| ==> FitRef(refs[i])
    ensures WellTypedAll(Copies(OPOUT, |refs|), RefValues(refs))
    ensures EncAll(Copies(OPOUT, |refs|), RefValues(refs)) == Some(RefsBytes(refs))
  {
    hide Enc, WellTyped, RefValue;
    if refs != [] {
      RefTyped(refs[0]);
      RefsEncoded(refs[1..]);
      assert Copies(OPOUT, |refs|)[1..] == Copies(OPOUT, |refs| - 1);
      assert RefValues(refs)[1..] == RefValues(refs[1..]);
    }
  }

  /** References, one after the other after their number, are the inputs of a transition exactly
      when each is below the next: by operation id, byte for byte, then by type, then by number. */
  lemma {:induction false} InputsAreSorted(refs: seq<Ref>)
    requires 1 <= |refs| <= 0xffff && forall i :: 0 <= i < |refs| ==> FitRef(refs[i])
    ensures Decode(INPUTS, TwoBytes(|refs|) + RefsBytes(refs)).Some? <==> Rising(refs)
  {
    hide RefValue, RefBelow, WellTypedAll, EncAll, Copies, Decode, RefsBytes, Less;
    var vs := RefValues(refs);
    RefsEncoded(refs);
    SetDecodes(OPOUT, 1, 0xffff, vs);
    TwoBytesAre(|refs|);
    forall i | 1 <= i < |refs| ensures Less(vs[i - 1], vs[i]) <==> RefBelow(refs[i - 1], refs[i]) {
      RefValuesSorted(refs[i - 1], refs[i]);
    }
  }

  /** The references and operation ids of an input map, in turn. */
  function EntriesBytes(refs: seq<Ref>, ops: seq<seq<byte>>): seq<byte>
    requires |refs| == |ops|
  {
    if refs == [] then []
    else refs[0].op + TwoBytes(refs[0].ty) + TwoBytes(refs[0].no) + ops[0] + EntriesBytes(refs[1..], ops[1..])
  }

  function EntryValues(refs: seq<Ref>, ops: seq<seq<byte>>): (vs: seq<Value>)
    requires |refs| == |ops|
    ensures |vs| == 2 * |refs| && forall i :: 0 <= i < |refs| ==> vs[2 * i] == RefValue(refs[i])
  {
    if refs == [] then []
    else
      var rest := EntryValues(refs[1..], ops[1..]);
      var vs := [RefValue(refs[0]), IdValue(ops[0])] + rest;
      assert forall i :: 1 <= i < |refs| ==> vs[2 * i] == rest[2 * (i - 1)];
      vs
  }

  lemma {:induction false} PairTyped(n: nat, key: Value, val: Value, rest: seq<Value>, bytes: seq<byte>)
    requires WellTyped(OPOUT, key) && WellTyped(OP_ID, val) && |rest| == 2 * n
    requires WellTypedAll(Pairs(OPOUT, OP_ID, n), rest) && EncAll(Pairs(OPOUT, OP_ID, n), rest) == Some(bytes)
    requires Enc(OPOUT, key).Some? && Enc(OP_ID, val).Some?
    ensures WellTypedAll(Pairs(OPOUT, OP_ID, n + 1), [key, val] + rest)
    ensures EncAll(Pairs(OPOUT, OP_ID, n + 1), [key, val] + rest) == Some(Enc(OPOUT, key).value + Enc(OP_ID, val).value + bytes)
  {
    hide Enc, WellTyped;
    var ts, more := Pairs(OPOUT, OP_ID, n + 1), Pairs(OPOUT, OP_ID, n);
    var vs := [key, val] + rest;
    assert ts == [OPOUT, OP_ID] + more;
    assert ts[1..] == [OP_ID] + more && ts[1..][1..] == more;
    assert vs[1..] == [val] + rest && vs[1..][1..] == rest;
    var a, b := Enc(OPOUT, key).value, Enc(OP_ID, val).value;
    assert EncAll(ts[1..], vs[1..]) == Some(b + bytes);
    assert a + (b + bytes) == a + b + bytes;
  }

  lemma {:induction false} EntriesTyped(refs: seq<Ref>, ops: seq<seq<byte>>)
    requires |refs| == |ops| && forall i :: 0 <= i < |refs| ==> FitRef(refs[i]) && |ops[i]| == 32
    ensures WellTypedAll(Pairs(OPOUT, OP_ID, |refs|), EntryValues(refs, ops))
    ensures EncAll(Pairs(OPOUT, OP_ID, |refs|), EntryValues(refs, ops)) == Some(EntriesBytes(refs, ops))
  {
    hide Enc, WellTyped, RefValue, IdValue, Pairs;
    if refs == [] {
      NothingEncoded([]);
      NothingTyped();
    } else {
      RefTyped(refs[0]);
      IdTyped(ops[0]);
      assert Enc(OP_ID, IdValue(ops[0])) == Some(ops[0]) by { IdEncodes(ops[0]); }
      EntriesTyped(refs[1..], ops[1..]);
      PairTyped(|refs| - 1, RefValue(refs[0]), IdValue(ops[0]), EntryValues(refs[1..], ops[1..]), EntriesBytes(refs[1..], ops[1..]));
    }
  }

  lemma {:induction false} NothingTyped()
    ensures WellTypedAll(Pairs(OPOUT, OP_ID, 0), [])
  {
  }

  lemma {:induction false} IdEncodes(op: seq<byte>)
    requires |op| == 32
    ensures Enc(OP_ID, IdValue(op)) == Some(op)
  {
    IdTyped(op);
    IdEncoded(IdValue(op), op);
  }

  /** The same of an input map: each committed reference below the next, whatever the operations. */
  lemma {:induction false} InputMapIsSorted(refs: seq<Ref>, ops: seq<seq<byte>>)
    requires 1 <= |refs| <= 0xffff && |refs| == |ops| && forall i :: 0 <= i < |refs| ==> FitRef(refs[i]) && |ops[i]| == 32
    ensures Decode(INPUT_MAP, TwoBytes(|refs|) + EntriesBytes(refs, ops)).Some? <==> Rising(refs)
  {
    hide RefValue, RefBelow, WellTypedAll, EncAll, Pairs, Decode, EntriesBytes, IdValue, Less;
    var vs := EntryValues(refs, ops);
    EntriesTyped(refs, ops);
    MapDecodes(OPOUT, OP_ID, 1, 0xffff, vs);
    TwoBytesAre(|refs|);
    forall i | 1 <= i < |refs| ensures Less(vs[2 * i - 2], vs[2 * i]) <==> RefBelow(refs[i - 1], refs[i]) {
      assert vs[2 * (i - 1)] == RefValue(refs[i - 1]);
      RefValuesSorted(refs[i - 1], refs[i]);
    }
  }
}
