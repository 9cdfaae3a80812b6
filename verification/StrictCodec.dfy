/** The type-directed strict codec: what a byte string decodes to at a type, and
    what a value encodes to. */
module StrictCodec {
  import opened Bytes
  import opened StrictTypes
  import opened Wrappers

  type Parsed = Option<(Value, seq<byte>)>

  // ----- lengths and raw bytes

  /** The width of a length prefix is chosen by the declared maximum. */
  function LengthWidth(max: nat): (w: nat)
    ensures max < U64 ==> max < Pow256(w)
  {
    Pow256Widths();
    if max <= 0xFF then 1 else if max <= 0xFFFF then 2 else if max <= 0xFFFFFF then 3 else if max <= 0xFFFFFFFF then 4 else 8
  }

  function Take(d: seq<byte>, n: nat): (r: Option<(seq<byte>, seq<byte>)>)
    ensures r.Some? <==> n <= |d|
    ensures r.Some? ==> r.value == (d[..n], d[n..])
  {
    if n <= |d| then Some((d[..n], d[n..])) else None
  }

  function ReadLength(d: seq<byte>, max: nat): (r: Option<(nat, seq<byte>)>)
    ensures r.Some? ==> r.value.0 <= max && |r.value.1| <= |d|
  {
    match Take(d, LengthWidth(max))
    case None => None
    case Some((raw, rest)) => if FromLittleEndian(raw) > max then None else Some((FromLittleEndian(raw), rest))
  }

  function WriteLength(n: nat, max: nat): Option<seq<byte>> {
    if n > max then None else Some(LittleEndian(n, LengthWidth(max)))
  }

  // ----- characters

  predicate Continuation(b: byte) { 0x80 <= b <= 0xBF }

  /** The width of the character a string starts with; 0 when it starts with none. */
  function RuneWidth(s: seq<byte>): (w: nat)
    ensures w <= |s|
  {
    if s == [] then 0
    else if s[0] < 0x80 then 1
    else if |s| >= 2 && 0xC2 <= s[0] <= 0xDF && Continuation(s[1]) then 2
    else if |s| >= 3 && 0xE0 <= s[0] <= 0xEF && Continuation(s[1]) && Continuation(s[2])
            && (s[0] == 0xE0 ==> s[1] >= 0xA0) && (s[0] == 0xED ==> s[1] <= 0x9F) then 3
    else if |s| >= 4 && 0xF0 <= s[0] <= 0xF4 && Continuation(s[1]) && Continuation(s[2]) && Continuation(s[3])
            && (s[0] == 0xF0 ==> s[1] >= 0x90) && (s[0] == 0xF4 ==> s[1] <= 0x8F) then 4
    else 0
  }

  predicate ValidUtf8(s: seq<byte>) {
    s == [] || (RuneWidth(s) > 0 && ValidUtf8(s[RuneWidth(s)..]))
  }

  /** The width the first byte announces. */
  function LeadWidth(first: byte): nat {
    if first < 0x80 then 1
    else if 0xC0 <= first <= 0xDF then 2
    else if 0xE0 <= first <= 0xEF then 3
    else if 0xF0 <= first <= 0xF7 then 4
    else 0
  }

  predicate OneRune(s: seq<byte>) {
    s != [] && RuneWidth(s) == |s|
  }

  // ----- variants and restricted strings

  /** The first variant with a tag. */
  function FindTag(variants: seq<Variant>, tag: byte): (r: Option<nat>)
    ensures r.Some? ==> r.value < |variants| && variants[r.value].tag == tag
    ensures r.Some? ==> forall j :: 0 <= j < r.value ==> variants[j].tag != tag
    ensures r.None? ==> forall j :: 0 <= j < |variants| ==> variants[j].tag != tag
  {
    if variants == [] then None
    else if variants[0].tag == tag then Some(0)
    else
      match FindTag(variants[1..], tag)
      case None => None
      case Some(i) => Some(i + 1)
  }

  /** The first variant with a tag and a name. */
  function FindVariant(variants: seq<Variant>, tag: byte, name: string): (r: Option<nat>)
    ensures r.Some? ==> r.value < |variants| && variants[r.value] == Variant(name, tag)
    ensures r.Some? ==> forall j :: 0 <= j < r.value ==> variants[j] != Variant(name, tag)
    ensures r.None? ==> forall j :: 0 <= j < |variants| ==> variants[j] != Variant(name, tag)
  {
    if variants == [] then None
    else if variants[0] == Variant(name, tag) then Some(0)
    else
      match FindVariant(variants[1..], tag, name)
      case None => None
      case Some(i) => Some(i + 1)
  }

  /** An enumeration of printable characters, possibly behind a tuple's first item. */
  predicate CharEnum(t: Ty)
    decreases Depth(t)
  {
    match t
    case Enum(vs) => vs != [] && forall i :: 0 <= i < |vs| ==> 32 <= vs[i].tag <= 127
    case Tuple(ts) => ts != [] && CharEnum(ts[0])
    case _ => false
  }

  predicate HasTag(t: Ty, wanted: byte)
    decreases Depth(t)
  {
    match t
    case Enum(vs) => FindTag(vs, wanted).Some?
    case Tuple(ts) => ts != [] && HasTag(ts[0], wanted)
    case _ => false
  }

  /** A leading character and a list of characters are one string, whose bounds
      are the list's plus one; the addition is in 64 bits. */
  function Restricted(ts: seq<Ty>): (r: Option<(Ty, nat, nat)>)
    ensures r.Some? ==> r.value.2 < U64
  {
    if |ts| == 2 && CharEnum(ts[0]) && ts[1].List? && CharEnum(ts[1].elem) && ts[1].max != U64 - 1 then
      Some((ts[1].elem, (ts[1].min + 1) % U64, ts[1].max + 1))
    else None
  }

  predicate RestrictedText(first: Ty, rest: Ty, raw: seq<byte>) {
    raw != [] && HasTag(first, raw[0]) && forall i :: 1 <= i < |raw| ==> HasTag(rest, raw[i])
  }

  /** Lists of plain bytes, of characters and of character enums are strings. */
  predicate Flat(e: Ty) {
    e == BYTE || e.Unicode? || CharEnum(e)
  }

  predicate FlatContent(e: Ty, raw: seq<byte>) {
    if e == BYTE then true
    else if e.Unicode? then ValidUtf8(raw)
    else forall i :: 0 <= i < |raw| ==> HasTag(e, raw[i])
  }

  function FlatBody(e: Ty, raw: seq<byte>): Body {
    if e == BYTE then Octets(raw) else Str(raw, raw)
  }

  // ----- decoding

  /** The value at the start of `d`, with the bytes it took as its cache, and the rest. */
  function Dec(t: Ty, d: seq<byte>): (r: Parsed)
    ensures r.Some? ==> |r.value.1| <= |d|
    decreases Depth(t), 1
  {
    match DecBody(t, d)
    case None => None
    case Some((body, rest)) => Some((Value(body, d[..|d| - |rest|]), rest))
  }

  function DecAll(ts: seq<Ty>, d: seq<byte>): (r: Option<(seq<Value>, seq<byte>)>)
    ensures r.Some? ==> |r.value.0| == |ts| && |r.value.1| <= |d|
    decreases DepthAll(ts), |ts| + 1
  {
    if ts == [] then Some(([], d))
    else
      match Dec(ts[0], d)
      case None => None
      case Some((v, rest)) =>
        match DecAll(ts[1..], rest)
        case None => None
        case Some((vs, last)) => Some(([v] + vs, last))
  }

  function DecBody(t: Ty, d: seq<byte>): (r: Option<(Body, seq<byte>)>)
    ensures r.Some? ==> |r.value.1| <= |d|
    decreases Depth(t), 0
  {
    match t
    case Prim(code) => DecPrim(code, d)
    case Unicode => DecUnicode(d)
    case Enum(vs) =>
      if d == [] || FindTag(vs, d[0]).None? then None
      else Some((EnumV(vs[FindTag(vs, d[0]).value].name, d[0]), d[1..]))
    case Union(vs, tys) =>
      if d == [] || FindTag(vs, d[0]).None? || FindTag(vs, d[0]).value >= |tys| then None
      else
        var i := FindTag(vs, d[0]).value;
        (match Dec(tys[i], d[1..])
         case None => None
         case Some((v, rest)) => Some((UnionV(vs[i].name, d[0], v), rest)))
    case Tuple(ts) =>
      (match Restricted(ts)
       case Some((restTy, min, max)) => DecRestricted(ts[0], restTy, min, max, d)
       case None =>
         match DecAll(ts, d)
         case None => None
         case Some((vs, rest)) => Some((TupleV(vs), rest)))
    case Struct(names, ts) =>
      if |names| != |ts| then None
      else
        (match DecAll(ts, d)
         case None => None
         case Some((vs, rest)) => Some((StructV(names, vs), rest)))
    case Array(e, n) =>
      if e == BYTE then
        (match Take(d, n)
         case None => None
         case Some((raw, rest)) => Some((Octets(raw), rest)))
      else
        (match DecAll(Copies(e, n), d)
         case None => None
         case Some((vs, rest)) => Some((ListV(vs), rest)))
    case List(e, min, max) =>
      (match ReadLength(d, max)
       case None => None
       case Some((n, body)) =>
         if n < min then None
         else if Flat(e) then DecFlat(e, n, body)
         else
           match DecAll(Copies(e, n), body)
           case None => None
           case Some((vs, rest)) => Some((ListV(vs), rest)))
    case Set(e, min, max) =>
      (match ReadLength(d, max)
       case None => None
       case Some((n, body)) =>
         if n < min then None
         else
           match DecAll(Copies(e, n), body)
           case None => None
           case Some((vs, rest)) => if Increasing(vs) then Some((SetV(vs), rest)) else None)
    case Map(k, v, min, max) =>
      (match ReadLength(d, max)
       case None => None
       case Some((n, body)) =>
         if n < min then None
         else
           match DecAll(Pairs(k, v, n), body)
           case None => None
           case Some((vs, rest)) => if Increasing(Keys(vs)) then Some((MapV(vs), rest)) else None)
  }

  /** Unit takes no bytes; reserved codes have no size; a non-zero number refuses zero. */
  function DecPrim(code: byte, d: seq<byte>): (r: Option<(Body, seq<byte>)>)
    ensures r.Some? ==> |r.value.1| <= |d|
  {
    if code == 0 then Some((Unit, d))
    else if PrimitiveSize(code) == 0 then None
    else
      match Take(d, PrimitiveSize(code))
      case None => None
      case Some((raw, rest)) => if RefusedZero(code, raw) then None else Some((NumberBody(code, raw), rest))
  }

  predicate RefusedZero(code: byte, raw: seq<byte>) {
    PrimitiveSize(code) <= 8 && Class(code) == 0x80 && FromLittleEndian(raw) == 0
  }

  function DecUnicode(d: seq<byte>): (r: Option<(Body, seq<byte>)>)
    ensures r.Some? ==> |r.value.1| <= |d|
  {
    if d == [] || LeadWidth(d[0]) == 0 || LeadWidth(d[0]) > |d| then None
    else
      var raw := d[..LeadWidth(d[0])];
      if ValidUtf8(raw) then Some((Str(raw, raw), d[|raw|..])) else None
  }

  function DecRestricted(first: Ty, restTy: Ty, min: nat, max: nat, d: seq<byte>): (r: Option<(Body, seq<byte>)>)
    ensures r.Some? ==> |r.value.1| <= |d|
  {
    match ReadLength(d, max)
    case None => None
    case Some((n, body)) =>
      if n < min then None
      else
        match Take(body, n)
        case None => None
        case Some((raw, rest)) => if RestrictedText(first, restTy, raw) then Some((Str(raw, raw), rest)) else None
  }

  function DecFlat(e: Ty, n: nat, d: seq<byte>): (r: Option<(Body, seq<byte>)>)
    ensures r.Some? ==> |r.value.1| <= |d|
  {
    match Take(d, n)
    case None => None
    case Some((raw, rest)) => if FlatContent(e, raw) then Some((FlatBody(e, raw), rest)) else None
  }

  /** A whole byte string decodes when nothing is left over. */
  function Decode(t: Ty, d: seq<byte>): Option<Value> {
    match Dec(t, d)
    case None => None
    case Some((v, rest)) => if rest == [] then Some(v) else None
  }

  // ----- encoding

  /** The bytes a number is written as: its raw bytes, or the low bytes of its
      64-bit pattern when it was built without any. */
  function RawNumber(size: nat, b: Body): seq<byte>
    requires b.Number?
  {
    if b.raw != [] || size > 8 then b.raw
    else if b.unsigned.Some? then LittleEndian(b.unsigned.value, 8)[..size]
    else if b.signed.Some? then LittleEndian(b.signed.value % U64, 8)[..size]
    else Repeat(0, size)
  }

  /** The number with its raw bytes filled in. */
  function Filled(size: nat, b: Body): Body
    requires b.Number?
  {
    Number(b.prim, RawNumber(size, b), b.unsigned, b.signed)
  }

  function RawText(b: Body): seq<byte>
    requires b.Str?
  {
    if b.raw == [] then b.text else b.raw
  }

  /** The bytes of a string-like value; None for other kinds. */
  function RawFlat(b: Body): Option<seq<byte>> {
    match b
    case Octets(raw) => Some(raw)
    case Str(_, _) => Some(RawText(b))
    case _ => None
  }

  function Join(a: Option<seq<byte>>, b: Option<seq<byte>>): Option<seq<byte>> {
    if a.Some? && b.Some? then Some(a.value + b.value) else None
  }

  /** The encoding of a value at a type; caches are never read. */
  function Enc(t: Ty, v: Value): Option<seq<byte>>
    decreases Depth(t), 0
  {
    match t
    case Prim(code) =>
      var b := Unwrap(v).body;
      if code == 0 then (if b.Unit? then Some([]) else None)
      else if PrimitiveSize(code) == 0 || !b.Number? || |RawNumber(PrimitiveSize(code), b)| != PrimitiveSize(code) then None
      else Some(RawNumber(PrimitiveSize(code), b))
    case Unicode =>
      var b := Unwrap(v).body;
      if b.Str? && OneRune(RawText(b)) then Some(RawText(b)) else None
    case Enum(vs) =>
      var b := Unwrap(v).body;
      if b.EnumV? && (if b.name == "" then FindTag(vs, b.tag).Some? else FindVariant(vs, b.tag, b.name).Some?)
      then Some([b.tag]) else None
    case Union(vs, tys) =>
      var b := Unwrap(v).body;
      if !b.UnionV? || FindVariant(vs, b.tag, b.name).None? || FindVariant(vs, b.tag, b.name).value >= |tys| then None
      else Join(Some([b.tag]), Enc(tys[FindVariant(vs, b.tag, b.name).value], b.inner))
    case Tuple(ts) =>
      if Restricted(ts).Some? then
        var (_, min, max) := Restricted(ts).value;
        if v.body.Str? && min <= |RawText(v.body)| then Join(WriteLength(|RawText(v.body)|, max), Some(RawText(v.body))) else None
      else if v.body.TupleV? && |v.body.items| == |ts| then EncAll(ts, v.body.items)
      else if |ts| == 1 then Enc(ts[0], Unwrap(v))
      else None
    case Struct(names, ts) =>
      var b := Unwrap(v).body;
      if b.StructV? && b.names == names && |b.items| == |ts| == |names| then EncAll(ts, b.items) else None
    case Array(e, n) =>
      if e == BYTE then (if v.body.Octets? && |v.body.raw| == n then Some(v.body.raw) else None)
      else
        var b := Unwrap(v).body;
        if b.ListV? && |b.items| == n then EncAll(Copies(e, n), b.items) else None
    case List(e, min, max) =>
      if Flat(e) then
        (match RawFlat(v.body)
         case None => None
         case Some(raw) => if min <= |raw| then Join(WriteLength(|raw|, max), Some(raw)) else None)
      else
        var b := Unwrap(v).body;
        if b.ListV? && min <= |b.items| then
          Join(WriteLength(|b.items|, max), EncAll(Copies(e, |b.items|), b.items))
        else None
    case Set(e, min, max) =>
      var b := Unwrap(v).body;
      if b.SetV? && min <= |b.items| && Increasing(b.items) then
        Join(WriteLength(|b.items|, max), EncAll(Copies(e, |b.items|), b.items))
      else None
    case Map(k, val, min, max) =>
      var b := Unwrap(v).body;
      if b.MapV? && |b.items| % 2 == 0 && min <= |b.items| / 2 && Increasing(Keys(b.items)) then
        Join(WriteLength(|b.items| / 2, max), EncAll(Pairs(k, val, |b.items| / 2), b.items))
      else None
  }

  function EncAll(ts: seq<Ty>, vs: seq<Value>): Option<seq<byte>>
    requires |ts| == |vs|
    decreases DepthAll(ts), |ts| + 1
  {
    if ts == [] then Some([]) else Join(Enc(ts[0], vs[0]), EncAll(ts[1..], vs[1..]))
  }

  // ----- values of a type

  /** `v` has the shape the decoder gives values of `t`; caches may be stale, and
      numbers and strings may lack their raw bytes. */
  predicate WellTyped(t: Ty, v: Value)
    decreases Depth(t), 0
  {
    var b := v.body;
    match t
    case Prim(code) => if code == 0 then b.Unit? else WellTypedNumber(code, b)
    case Unicode => b.Str? && WellTypedText(b) && OneRune(b.text)
    case Enum(vs) => b.EnumV? && FindTag(vs, b.tag).Some? && vs[FindTag(vs, b.tag).value].name == b.name
    case Union(vs, tys) =>
      && b.UnionV? && FindTag(vs, b.tag).Some? && FindTag(vs, b.tag).value < |tys|
      && vs[FindTag(vs, b.tag).value].name == b.name
      && WellTyped(tys[FindTag(vs, b.tag).value], b.inner)
    case Tuple(ts) =>
      if Restricted(ts).Some? then
        var (restTy, min, max) := Restricted(ts).value;
        b.Str? && WellTypedText(b) && min <= |b.text| <= max && RestrictedText(ts[0], restTy, b.text)
      else b.TupleV? && |b.items| == |ts| && WellTypedAll(ts, b.items)
    case Struct(names, ts) =>
      b.StructV? && b.names == names && |b.items| == |ts| == |names| && WellTypedAll(ts, b.items)
    case Array(e, n) =>
      if e == BYTE then b.Octets? && |b.raw| == n
      else b.ListV? && |b.items| == n && WellTypedAll(Copies(e, n), b.items)
    case List(e, min, max) =>
      if Flat(e) then
        (if e == BYTE then b.Octets? && min <= |b.raw| <= max
         else b.Str? && WellTypedText(b) && min <= |b.text| <= max && FlatContent(e, b.text))
      else b.ListV? && min <= |b.items| <= max && WellTypedAll(Copies(e, |b.items|), b.items)
    case Set(e, min, max) =>
      b.SetV? && min <= |b.items| <= max && WellTypedAll(Copies(e, |b.items|), b.items) && Increasing(b.items)
    case Map(k, val, min, max) =>
      && b.MapV? && |b.items| % 2 == 0 && min <= |b.items| / 2 <= max
      && WellTypedAll(Pairs(k, val, |b.items| / 2), b.items) && Increasing(Keys(b.items))
  }

  predicate WellTypedAll(ts: seq<Ty>, vs: seq<Value>)
    requires |ts| == |vs|
    decreases DepthAll(ts), |ts| + 1
  {
    ts == [] || (WellTyped(ts[0], vs[0]) && WellTypedAll(ts[1..], vs[1..]))
  }

  /** The number is what its raw bytes say; without raw bytes, it fits the width. */
  predicate WellTypedNumber(code: byte, b: Body) {
    && b.Number? && b.prim == code && PrimitiveSize(code) > 0
    && (b.raw != [] || b.unsigned.Some? || b.signed.Some?)
    && |RawNumber(PrimitiveSize(code), b)| == PrimitiveSize(code)
    && NumberBody(code, RawNumber(PrimitiveSize(code), b)) == Filled(PrimitiveSize(code), b)
    && !RefusedZero(code, RawNumber(PrimitiveSize(code), b))
  }

  predicate WellTypedText(b: Body)
    requires b.Str?
  {
    b.raw == [] || b.raw == b.text
  }

  // ----- refreshed caches

  /** `v` with raw bytes filled in and every cache set to the node's own encoding. */
  function Stamp(t: Ty, v: Value): Value
    requires WellTyped(t, v)
    decreases Depth(t), 1
  {
    Value(StampBody(t, v), if Enc(t, v).Some? then Enc(t, v).value else [])
  }

  function StampAll(ts: seq<Ty>, vs: seq<Value>): (r: seq<Value>)
    requires |ts| == |vs| && WellTypedAll(ts, vs)
    ensures |r| == |vs|
    decreases DepthAll(ts), |ts| + 1
  {
    if ts == [] then [] else [Stamp(ts[0], vs[0])] + StampAll(ts[1..], vs[1..])
  }

  function StampBody(t: Ty, v: Value): Body
    requires WellTyped(t, v)
    decreases Depth(t), 0
  {
    var b := v.body;
    match b
    case Number(_, _, _, _) => if t.Prim? then Filled(PrimitiveSize(t.code), b) else b
    case Str(text, _) => Str(text, text)
    case UnionV(name, tag, inner) =>
      if t.Union? then UnionV(name, tag, Stamp(t.tys[FindTag(t.variants, tag).value], inner)) else b
    case TupleV(items) => if t.Tuple? then TupleV(StampAll(t.tys, items)) else b
    case StructV(names, items) => if t.Struct? then StructV(names, StampAll(t.tys, items)) else b
    case ListV(items) => if t.Array? || t.List? then ListV(StampAll(Copies(t.elem, |items|), items)) else b
    case SetV(items) => if t.Set? then SetV(StampAll(Copies(t.elem, |items|), items)) else b
    case MapV(items) => if t.Map? then MapV(StampAll(Pairs(t.key, t.val, |items| / 2), items)) else b
    case _ => b
  }
}
