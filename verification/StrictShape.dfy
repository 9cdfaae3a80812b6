/** The leaves of the strict codec written out: lengths, sizes and values of numbers, characters and strings. */
module StrictShape {
  import opened Bytes
  import opened StrictTypes
  import opened StrictCodec
  import opened StrictRoundTrip
  import opened StrictReread
  import opened Wrappers

  // ----- lengths

  /** A length takes the least of the five widths that its maximum fits. */
  lemma {:induction false} LengthIsLeast(max: nat)
    requires max < U64
    ensures LengthWidth(max) in {1, 2, 3, 4, 8} && max < Pow256(LengthWidth(max))
    ensures forall w :: w in {1, 2, 3, 4, 8} && w < LengthWidth(max) ==> Pow256(w) <= max
  {
    Pow256Widths();
  }

  // ----- numbers

  /** The low six bits of a code are a size, in steps of 16 from 32 bytes on; the codes of plain
      bytes and of the smallest float, whose bits would say none, have one and two. */
  lemma {:induction false} SizesAre(kind: nat, bits: nat)
    requires kind < 4 && bits < 64
    ensures PrimitiveSize(64 * kind + bits) ==
            if bits == 0 && kind == 1 then 1 else if bits == 0 && kind == 3 then 2
            else if bits < 32 then bits else 32 + 16 * (bits - 32)
  {
    var code := 64 * kind + bits;
    assert code % 64 == bits;
    assert code % 32 == bits % 32;
  }

  ghost predicate AllZero(raw: seq<byte>) {
    forall i :: 0 <= i < |raw| ==> raw[i] == 0
  }

  lemma {:induction false} ZeroBytes(raw: seq<byte>)
    ensures FromLittleEndian(raw) == 0 <==> AllZero(raw)
  {
    if raw != [] {
      ZeroBytes(raw[1..]);
      assert forall i :: 0 < i < |raw| ==> raw[i] == raw[1..][i - 1];
      assert forall i :: 0 <= i < |raw[1..]| ==> raw[1..][i] == raw[i + 1];
    }
  }

  /** Two's complement: the top bit counts negative. */
  ghost function Signed(raw: seq<byte>): int {
    if raw != [] && raw[|raw| - 1] >= 128 then FromLittleEndian(raw) - Pow256(|raw|) else FromLittleEndian(raw)
  }

  lemma {:induction false} TopBit(raw: seq<byte>)
    requires raw != []
    ensures raw[|raw| - 1] >= 128 <==> 2 * FromLittleEndian(raw) >= Pow256(|raw|)
  {
    var rest := raw[1..];
    if rest != [] {
      TopBit(rest);
      assert rest[|rest| - 1] == raw[|raw| - 1];
    } else {
      assert FromLittleEndian(rest) == 0 && Pow256(1) == 256 * Pow256(0);
    }
  }

  /** A number of up to eight bytes is read by the top two bits of its code, plain bytes as unsigned; non-zero
      numbers refuse zero; wider numbers and floats keep only their bytes. */
  lemma {:induction false} NumbersAre(code: byte, raw: seq<byte>)
    requires code != 0 && |raw| == PrimitiveSize(code)
    ensures var b := NumberBody(code, raw);
            && b.prim == code && b.raw == raw
            && (|raw| <= 8 && (code <= 64 || 128 <= code < 192) ==> b.unsigned == Some(FromLittleEndian(raw)) && b.signed == None)
            && (|raw| <= 8 && 64 < code < 128 ==> b.unsigned == None && b.signed == Some(Signed(raw)))
            && (|raw| > 8 || 192 <= code ==> b.unsigned == None && b.signed == None)
    ensures RefusedZero(code, raw) <==> |raw| <= 8 && 128 <= code < 192 && AllZero(raw)
  {
    ZeroBytes(raw);
    if raw != [] {
      TopBit(raw);
    }
    assert code / 64 * 64 == if code < 64 then 0 else if code < 128 then 64 else if code < 192 then 128 else 192;
  }

  // ----- characters

  /** Unicode scalar values. */
  predicate Scalar(c: nat) {
    c < 0xD800 || 0xE000 <= c < 0x110000
  }

  /** UTF-8, section 3 of RFC 3629. */
  function Utf8(c: nat): seq<byte>
    requires Scalar(c)
  {
    if c < 0x80 then [c]
    else if c < 0x800 then [0xC0 + c / 64, 0x80 + c % 64]
    else if c < 0x10000 then [0xE0 + c / 4096, 0x80 + c / 64 % 64, 0x80 + c % 64]
    else [0xF0 + c / 262144, 0x80 + c / 4096 % 64, 0x80 + c / 64 % 64, 0x80 + c % 64]
  }

  /** The string starts with the encoding of the scalar value. */
  ghost predicate StartsWith(s: seq<byte>, c: nat) {
    Scalar(c) && Utf8(c) <= s
  }

  lemma {:induction false} TwoBack(a: byte, b: byte) returns (c: nat)
    requires 0xC2 <= a <= 0xDF && Continuation(b)
    ensures Scalar(c) && Utf8(c) == [a, b]
  {
    var x: int, y: int := a - 0xC0, b - 0x80;
    c := 64 * x + y;
    assert c / 64 == x && c % 64 == y;
  }

  lemma {:induction false} ThreeBack(a: byte, b: byte, d: byte) returns (c: nat)
    requires 0xE0 <= a <= 0xEF && Continuation(b) && Continuation(d)
    requires (a == 0xE0 ==> b >= 0xA0) && (a == 0xED ==> b <= 0x9F)
    ensures Scalar(c) && Utf8(c) == [a, b, d]
  {
    var x: int, y: int, z: int := a - 0xE0, b - 0x80, d - 0x80;
    c := 4096 * x + 64 * y + z;
    assert c / 64 == 64 * x + y && c % 64 == z;
    assert c / 4096 == x && c / 64 % 64 == y;
  }

  lemma {:induction false} FourBack(a: byte, b: byte, d: byte, e: byte) returns (c: nat)
    requires 0xF0 <= a <= 0xF4 && Continuation(b) && Continuation(d) && Continuation(e)
    requires (a == 0xF0 ==> b >= 0x90) && (a == 0xF4 ==> b <= 0x8F)
    ensures Scalar(c) && Utf8(c) == [a, b, d, e]
  {
    var w: int, x: int, y: int, z: int := a - 0xF0, b - 0x80, d - 0x80, e - 0x80;
    c := 262144 * w + 4096 * x + 64 * y + z;
    assert c / 64 == 4096 * w + 64 * x + y && c % 64 == z;
    assert c / 4096 == 64 * w + x && c / 64 % 64 == y;
    assert c / 262144 == w && c / 4096 % 64 == x;
  }

  lemma {:induction false} RuneIsScalar(s: seq<byte>)
    requires RuneWidth(s) > 0
    ensures exists c :: Scalar(c) && Utf8(c) == s[..RuneWidth(s)]
  {
    hide Utf8, Scalar;
    if s[0] < 0x80 {
      AsciiBack(s[0]);
    } else if RuneWidth(s) == 2 {
      var c := TwoBack(s[0], s[1]);
    } else if RuneWidth(s) == 3 {
      var c := ThreeBack(s[0], s[1], s[2]);
    } else {
      var c := FourBack(s[0], s[1], s[2], s[3]);
    }
  }

  lemma {:induction false} AsciiBack(a: byte)
    requires a < 0x80
    ensures Scalar(a) && Utf8(a) == [a]
  {
  }

  lemma {:induction false} ScalarBytes(c: nat)
    requires Scalar(c)
    ensures RuneWidth(Utf8(c)) == |Utf8(c)|
  {
  }

  lemma {:induction false} SameStart(s: seq<byte>, u: seq<byte>)
    requires u <= s && u != [] && RuneWidth(u) == |u|
    ensures RuneWidth(s) == |u|
  {
    assert forall i :: 0 <= i < |u| ==> u[i] == s[i];
  }

  lemma {:induction false} ScalarIsRune(s: seq<byte>, c: nat)
    requires StartsWith(s, c)
    ensures RuneWidth(s) == |Utf8(c)|
  {
    ScalarBytes(c);
    NoEmptyRune(c);
    hide Utf8, RuneWidth;
    SameStart(s, Utf8(c));
  }

  lemma {:induction false} NoEmptyRune(c: nat)
    requires Scalar(c)
    ensures |Utf8(c)| > 0
  {
  }

  ghost predicate Scalars(cs: seq<nat>) {
    forall i :: 0 <= i < |cs| ==> Scalar(cs[i])
  }

  function Utf8All(cs: seq<nat>): seq<byte>
    requires Scalars(cs)
  {
    if cs == [] then [] else Utf8(cs[0]) + Utf8All(cs[1..])
  }

  lemma {:induction false} ValidIsText(s: seq<byte>) returns (cs: seq<nat>)
    requires ValidUtf8(s)
    ensures Scalars(cs) && Utf8All(cs) == s
  {
    hide Utf8, Scalar, RuneWidth;
    cs := [];
    if s != [] {
      var w := RuneWidth(s);
      RuneIsScalar(s);
      var c :| Scalar(c) && Utf8(c) == s[..w];
      var rest := ValidIsText(s[w..]);
      cs := [c] + rest;
      assert cs[1..] == rest;
    }
  }

  lemma {:induction false} TextIsValid(cs: seq<nat>)
    requires Scalars(cs)
    ensures ValidUtf8(Utf8All(cs))
  {
    hide Utf8, Scalar, RuneWidth;
    if cs != [] {
      var s, u := Utf8All(cs), Utf8(cs[0]);
      assert s[..|u|] == u && s[|u|..] == Utf8All(cs[1..]);
      assert StartsWith(s, cs[0]);
      ScalarIsRune(s, cs[0]);
      NoEmptyRune(cs[0]);
      TextIsValid(cs[1..]);
    }
  }

  /** A string is valid exactly when it is the encoding of scalar values. */
  lemma {:induction false} Utf8Exactly(s: seq<byte>)
    ensures ValidUtf8(s) <==> exists cs :: Scalars(cs) && Utf8All(cs) == s
  {
    hide Utf8All, ValidUtf8;
    if ValidUtf8(s) {
      var cs := ValidIsText(s);
    }
    if cs :| Scalars(cs) && Utf8All(cs) == s {
      TextIsValid(cs);
    }
  }

  /** A single character is decoded exactly where the encoding of a scalar value stands, and takes that. */
  lemma {:induction false} CharacterDecodes(d: seq<byte>)
    ensures DecUnicode(d).Some? <==> exists c :: StartsWith(d, c)
    ensures forall c :: StartsWith(d, c) ==> DecUnicode(d) == Some((Str(Utf8(c), Utf8(c)), d[|Utf8(c)|..]))
  {
    hide Utf8, Scalar;
    forall c | StartsWith(d, c) ensures DecUnicode(d) == Some((Str(Utf8(c), Utf8(c)), d[|Utf8(c)|..])) {
      ScalarDecodes(d, c);
    }
    if DecUnicode(d).Some? {
      var raw := d[..LeadWidth(d[0])];
      LeadWidthIsRuneWidth(raw);
      RuneIsScalar(raw);
      var c :| Scalar(c) && Utf8(c) == raw[..RuneWidth(raw)];
      assert Utf8(c) <= raw && raw <= d;
      assert StartsWith(d, c);
    }
  }

  lemma {:induction false} ScalarDecodes(d: seq<byte>, c: nat)
    requires StartsWith(d, c)
    ensures DecUnicode(d) == Some((Str(Utf8(c), Utf8(c)), d[|Utf8(c)|..]))
  {
    var u := Utf8(c);
    assert d[..|u|] == u && d[0] == u[0];
    assert LeadWidth(d[0]) == |u|;
    TextIsValid([c]);
    assert [c][1..] == [] && Utf8All([c]) == u + [];
    assert u + [] == u;
  }

  // ----- strings

  /** One of the variants has the tag. */
  ghost predicate Tagged(vs: seq<Variant>, tag: byte) {
    exists j :: 0 <= j < |vs| && vs[j].tag == tag
  }

  /** Printable characters: at least one variant, and every tag from 32 to 127. */
  ghost predicate Printable(vs: seq<Variant>) {
    vs != [] && forall j :: 0 <= j < |vs| ==> 32 <= vs[j].tag <= 127
  }

  lemma {:induction false} TagsAre(vs: seq<Variant>, tag: byte)
    ensures HasTag(Enum(vs), tag) <==> Tagged(vs, tag)
    ensures CharEnum(Enum(vs)) <==> Printable(vs)
    ensures Flat(Enum(vs)) <==> Printable(vs)
  {
  }

  /** A length and as many bytes. */
  function Prefixed(max: nat, raw: seq<byte>): seq<byte> {
    LittleEndian(|raw|, LengthWidth(max)) + raw
  }

  lemma {:induction false} PrefixRead(max: u64, raw: seq<byte>)
    requires |raw| <= max
    ensures ReadLength(Prefixed(max, raw), max) == Some((|raw|, raw))
  {
    ReadLengthBack(|raw|, max, raw);
  }

  lemma {:induction false} FlatIs(e: Ty, min: u64, max: u64, raw: seq<byte>)
    requires Flat(e) && min <= |raw| <= max
    ensures Decode(List(e, min, max), Prefixed(max, raw)) ==
            if FlatContent(e, raw) then Some(Value(FlatBody(e, raw), Prefixed(max, raw))) else None
  {
    hide ReadLength, Flat, FlatContent, FlatBody, Prefixed;
    var d := Prefixed(max, raw);
    PrefixRead(max, raw);
    assert raw[..|raw|] == raw && raw[|raw|..] == [] && d[..|d|] == d;
    assert DecBody(List(e, min, max), d) == DecFlat(e, |raw|, raw);
  }

  ghost function TextIf(ok: bool, raw: seq<byte>, d: seq<byte>): Option<Value> {
    if ok then Some(Value(Str(raw, raw), d)) else None
  }

  /** A length and bytes are a list of plain bytes, whatever they are; a list of characters when they
      are UTF-8; and a list of printable characters when each is one of those. All three are kept as bytes. */
  lemma {:induction false} StringsDecode(min: u64, max: u64, raw: seq<byte>, vs: seq<Variant>)
    requires min <= |raw| <= max
    ensures var d := Prefixed(max, raw);
            && Decode(List(BYTE, min, max), d) == Some(Value(Octets(raw), d))
            && Decode(List(Unicode, min, max), d) == TextIf(exists cs :: Scalars(cs) && Utf8All(cs) == raw, raw, d)
            && (Printable(vs) ==> Decode(List(Enum(vs), min, max), d) == TextIf(forall i :: 0 <= i < |raw| ==> Tagged(vs, raw[i]), raw, d))
  {
    hide Decode, Prefixed, Printable, Tagged, ValidUtf8, HasTag, CharEnum;
    FlatIs(BYTE, min, max, raw);
    FlatIs(Unicode, min, max, raw);
    Utf8Exactly(raw);
    TagsAre(vs, 0);
    if Printable(vs) {
      FlatIs(Enum(vs), min, max, raw);
      forall i | 0 <= i < |raw| ensures HasTag(Enum(vs), raw[i]) <==> Tagged(vs, raw[i]) {
        TagsAre(vs, raw[i]);
      }
    }
  }

  /** A first character and a list of further ones: a length, counting both, and characters of the two
      kinds; the bounds are one more than those of the list. */
  lemma {:induction false} RestrictedDecodes(vs: seq<Variant>, ws: seq<Variant>, min: u64, max: u64, raw: seq<byte>)
    requires Printable(vs) && Printable(ws) && min + 1 < U64 && max + 1 < U64 && |raw| <= max + 1
    ensures Decode(Tuple([Enum(vs), List(Enum(ws), min, max)]), Prefixed(max + 1, raw)) ==
            if min + 1 <= |raw| && Tagged(vs, raw[0]) && forall i :: 1 <= i < |raw| ==> Tagged(ws, raw[i])
            then Some(Value(Str(raw, raw), Prefixed(max + 1, raw))) else None
  {
    hide ReadLength, Prefixed, Printable, Tagged, HasTag, CharEnum;
    TagsAre(vs, if raw != [] then raw[0] else 0);
    TagsAre(ws, 0);
    forall i | 1 <= i < |raw| ensures HasTag(Enum(ws), raw[i]) <==> Tagged(ws, raw[i]) {
      TagsAre(ws, raw[i]);
    }
    var ts, d := [Enum(vs), List(Enum(ws), min, max)], Prefixed(max + 1, raw);
    PrefixRead(max + 1, raw);
    assert Restricted(ts) == Some((Enum(ws), min + 1, max + 1));
    assert raw[..|raw|] == raw && raw[|raw|..] == [] && d[..|d|] == d;
    assert DecBody(Tuple(ts), d) == DecRestricted(Enum(vs), Enum(ws), min + 1, max + 1, d);
  }

  // ----- wrapped values

  /** Unwrapping goes through one-item tuples, and through nothing else. */
  lemma {:induction false} UnwrapIs(v: Value, cache: seq<byte>)
    ensures Unwrap(Value(TupleV([v]), cache)) == Unwrap(v)
    ensures !(v.body.TupleV? && |v.body.items| == 1) ==> Unwrap(v) == v
  {
  }

  /** Where the encoder looks through one-item tuples, a wrapped value is encoded as the bare one. */
  lemma {:induction false} WrappedEncodes(t: Ty, v: Value, cache: seq<byte>)
    requires t.Prim? || t.Unicode? || t.Enum? || t.Union? || t.Struct? || t.Set? || t.Map?
    ensures Enc(t, Value(TupleV([v]), cache)) == Enc(t, v)
  {
    UnwrapIs(v, cache);
    hide Unwrap, EncAll, Increasing, RawNumber, RawText, OneRune, WriteLength;
  }
}
