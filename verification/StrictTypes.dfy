/** Strict types as finite, resolved trees, and the values decoded at them. */
module StrictTypes {
  import opened Bytes
  import opened Wrappers

  datatype Variant = Variant(name: string, tag: byte)

  datatype Ty =
    | Prim(code: byte)
    | Unicode
    | Enum(variants: seq<Variant>)
    | Union(variants: seq<Variant>, tys: seq<Ty>)   // tys[i] is the payload of variants[i]
    | Tuple(tys: seq<Ty>)
    | Struct(names: seq<string>, tys: seq<Ty>)      // tys[i] is the type of field names[i]
    | Array(elem: Ty, length: nat)
    | List(elem: Ty, min: u64, max: u64)
    | Set(elem: Ty, min: u64, max: u64)
    | Map(key: Ty, val: Ty, min: u64, max: u64)

  /** A value and the cache of the bytes it was decoded from. */
  datatype Value = Value(body: Body, encoded: seq<byte>)

  datatype Body =
    | Unit
    | Number(prim: byte, raw: seq<byte>, unsigned: Option<nat>, signed: Option<int>)
    | Octets(raw: seq<byte>)
    | Str(text: seq<byte>, raw: seq<byte>)
    | EnumV(name: string, tag: byte)
    | UnionV(name: string, tag: byte, inner: Value)
    | TupleV(items: seq<Value>)
    | StructV(names: seq<string>, items: seq<Value>)
    | ListV(items: seq<Value>)
    | SetV(items: seq<Value>)
    | MapV(items: seq<Value>)                       // keys and values alternate

  const BYTE: Ty := Prim(0x40)

  // ----- sizes of types

  function Max(a: nat, b: nat): nat {
    if a < b then b else a
  }

  /** Nesting depth: it bounds every recursion over a type. */
  function Depth(t: Ty): nat {
    match t
    case Union(_, tys) => 1 + DepthAll(tys)
    case Tuple(tys) => 1 + DepthAll(tys)
    case Struct(_, tys) => 1 + DepthAll(tys)
    case Array(e, _) => 1 + Depth(e)
    case List(e, _, _) => 1 + Depth(e)
    case Set(e, _, _) => 1 + Depth(e)
    case Map(k, v, _, _) => 1 + Max(Depth(k), Depth(v))
    case _ => 0
  }

  function DepthAll(ts: seq<Ty>): (n: nat)
    ensures forall i :: 0 <= i < |ts| ==> Depth(ts[i]) <= n
  {
    if ts == [] then 0 else Max(Depth(ts[0]), DepthAll(ts[1..]))
  }

  /** The element type of a collection, once per element. */
  function Copies(t: Ty, n: nat): (ts: seq<Ty>)
    ensures |ts| == n && DepthAll(ts) <= Depth(t)
    ensures forall i :: 0 <= i < n ==> ts[i] == t
  {
    if n == 0 then [] else [t] + Copies(t, n - 1)
  }

  /** Key and value types in turn, once per entry. */
  function Pairs(k: Ty, v: Ty, n: nat): (ts: seq<Ty>)
    ensures |ts| == 2 * n && DepthAll(ts) <= Max(Depth(k), Depth(v))
  {
    if n == 0 then [] else
      var rest := Pairs(k, v, n - 1);
      assert ([k, v] + rest)[1..] == [v] + rest && ([v] + rest)[1..] == rest;
      [k, v] + rest
  }

  // ----- primitives

  function PrimitiveSize(code: byte): nat {
    if code == 0 then 0
    else if code == 0x40 then 1
    else if code == 0xc0 then 2
    else if code % 64 < 32 then code % 32
    else 16 * (2 + code % 32)
  }

  /** The top two bits of a primitive code; plain bytes count as unsigned. */
  function Class(code: byte): nat {
    if code == 0x40 then 0 else code / 64 * 64
  }

  /** Two's complement of at most eight bytes. */
  function LittleEndianInt(raw: seq<byte>): int {
    var u := FromLittleEndian(raw);
    if raw != [] && 2 * u >= Pow256(|raw|) then u - Pow256(|raw|) else u
  }

  /** A number as the decoder builds it. */
  function NumberBody(code: byte, raw: seq<byte>): Body {
    if PrimitiveSize(code) <= 8 && (Class(code) == 0 || Class(code) == 0x80) then
      Number(code, raw, Some(FromLittleEndian(raw)), None)
    else if PrimitiveSize(code) <= 8 && Class(code) == 0x40 then
      Number(code, raw, None, Some(LittleEndianInt(raw)))
    else
      Number(code, raw, None, None)
  }

  // ----- unwrapping and order

  function Unwrap(v: Value): Value {
    if v.body.TupleV? && |v.body.items| == 1 then Unwrap(v.body.items[0]) else v
  }

  function CompareNat(a: nat, b: nat): int {
    if a < b then -1 else if a > b then 1 else 0
  }

  function CompareInt(a: int, b: int): int {
    if a < b then -1 else if a > b then 1 else 0
  }

  /** Bytewise lexicographic order, shorter strings first. */
  function CompareBytes(a: seq<byte>, b: seq<byte>): int {
    if a == [] then (if b == [] then 0 else -1)
    else if b == [] then 1
    else if a[0] != b[0] then CompareNat(a[0], b[0])
    else CompareBytes(a[1..], b[1..])
  }

  function BigInt(raw: seq<byte>, isSigned: bool): int {
    if isSigned then LittleEndianInt(raw) else FromLittleEndian(raw)
  }

  function CompareNumbers(a: Body, b: Body): Option<int>
    requires a.Number? && b.Number?
  {
    if a.unsigned.Some? && b.unsigned.Some? then Some(CompareNat(a.unsigned.value, b.unsigned.value))
    else if a.signed.Some? && b.signed.Some? then Some(CompareInt(a.signed.value, b.signed.value))
    else if a.prim != b.prim || |a.raw| != |b.raw| then None
    else Some(CompareInt(BigInt(a.raw, a.prim / 64 == 1), BigInt(b.raw, a.prim / 64 == 1)))
  }

  predicate NameTag(names: seq<string>) {
    |names| == 2 && names[0] == "name" && names[1] == "tag"
  }

  function Uint64(v: Value): Option<nat> {
    if v.body.Number? then v.body.unsigned else None
  }

  /** The order of canonical collections; None when two values cannot be compared. */
  function Compare(a: Value, b: Value): Option<int>
    decreases a, b
  {
    if a.body.TupleV? && |a.body.items| == 1 then Compare(a.body.items[0], b)
    else if b.body.TupleV? && |b.body.items| == 1 then Compare(a, b.body.items[0])
    else
      match (a.body, b.body)
      case (Unit, Unit) => Some(0)
      case (Number(_, _, _, _), Number(_, _, _, _)) => CompareNumbers(a.body, b.body)
      case (Octets(r), Octets(s)) => Some(CompareBytes(r, s))
      case (Str(r, _), Str(s, _)) => Some(CompareBytes(r, s))
      case (EnumV(_, r), EnumV(_, s)) => Some(CompareNat(r, s))
      case (UnionV(_, r, x), UnionV(_, s, y)) => if r != s then Some(CompareNat(r, s)) else Compare(x, y)
      case (TupleV(xs), TupleV(ys)) => CompareAll(xs, ys)
      case (ListV(xs), ListV(ys)) => CompareAll(xs, ys)
      case (SetV(xs), SetV(ys)) => CompareAll(xs, ys)
      case (MapV(xs), MapV(ys)) => if |xs| != |ys| then Some(CompareNat(|xs|, |ys|)) else CompareAll(xs, ys)
      case (StructV(ns, xs), StructV(ms, ys)) =>
        if |ns| != |ms| then None
        else if NameTag(ns) && NameTag(ms) && |xs| == |ys| == 2 then
          (if Uint64(xs[1]).None? || Uint64(ys[1]).None? then None
           else Some(CompareNat(Uint64(xs[1]).value, Uint64(ys[1]).value)))
        else CompareFields(ns, xs, ms, ys)
      case _ => None
  }

  function CompareAll(xs: seq<Value>, ys: seq<Value>): Option<int>
    decreases xs, ys
  {
    if xs == [] || ys == [] then Some(CompareNat(|xs|, |ys|))
    else
      var first := Compare(xs[0], ys[0]);
      if first != Some(0) then first else CompareAll(xs[1..], ys[1..])
  }

  function CompareFields(ns: seq<string>, xs: seq<Value>, ms: seq<string>, ys: seq<Value>): Option<int>
    decreases xs, ys
  {
    if ns == [] || ms == [] || xs == [] || ys == [] then Some(0)
    else if ns[0] != ms[0] then None
    else
      var first := Compare(xs[0], ys[0]);
      if first != Some(0) then first else CompareFields(ns[1..], xs[1..], ms[1..], ys[1..])
  }

  predicate Less(a: Value, b: Value) {
    Compare(a, b).Some? && Compare(a, b).value < 0
  }

  /** Every element is below the next one. */
  predicate Increasing(items: seq<Value>) {
    forall i :: 1 <= i < |items| ==> Less(items[i - 1], items[i])
  }

  /** The keys of alternating keys and values. */
  function Keys(items: seq<Value>): (keys: seq<Value>)
    ensures |keys| == (|items| + 1) / 2
    ensures forall i :: 0 <= i < |keys| ==> keys[i] == items[2 * i]
  {
    if items == [] then [] else if |items| == 1 then [items[0]] else [items[0]] + Keys(items[2..])
  }
}
