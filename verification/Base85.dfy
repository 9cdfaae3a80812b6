/** The base85 text of consignment armor: four bytes to five digits of the
    alphabet in section 4.2 of RFC 1924, with a short last group. */
module Base85 {
  import opened Bytes
  import opened Wrappers

  datatype Error = Character | Remainder

  type digit = d: int | 0 <= d < 85

  // ----- framing: a string cut into groups, each group translated on its own

  function Min(a: nat, b: nat): nat {
    if a < b then a else b
  }

  /** `s` cut into groups of `n`, the last one possibly shorter, each mapped by `f`. */
  function Chunked<A, B>(s: seq<A>, n: nat, f: seq<A> -> seq<B>): seq<B>
    requires n > 0
  {
    if s == [] then [] else f(s[..Min(n, |s|)]) + Chunked(s[Min(n, |s|)..], n, f)
  }

  lemma {:induction false} ChunkedOne<A, B>(s: seq<A>, n: nat, f: seq<A> -> seq<B>)
    requires 0 < |s| <= n
    ensures Chunked(s, n, f) == f(s)
  {
    assert s[..|s|] == s && s[|s|..] == [];
  }

  /** A group added after full groups is translated on its own. */
  lemma {:induction false} ChunkedAppend<A, B>(full: seq<A>, group: seq<A>, k: nat, n: nat, f: seq<A> -> seq<B>)
    requires 0 < |group| <= n && |full| == k * n
    ensures Chunked(full + group, n, f) == Chunked(full, n, f) + f(group)
    decreases k
  {
    if k == 0 {
      assert full + group == group;
      ChunkedOne(group, n, f);
    } else {
      assert |full| == (k - 1) * n + n;
      ChunkedAppend(full[n..], group, k - 1, n, f);
      assert (full + group)[..n] == full[..n] && (full + group)[n..] == full[n..] + group;
    }
  }

  /** `f` makes the group one longer, and `g` takes it back. */
  ghost predicate Undoes<A, B>(f: seq<A> -> seq<B>, g: seq<B> -> seq<A>, c: seq<A>) {
    |f(c)| == |c| + 1 && g(f(c)) == c
  }

  /** Groups translated to groups that can be told apart come back group by group. */
  lemma {:induction false} ChunkedInverse<A, B>(s: seq<A>, n: nat, f: seq<A> -> seq<B>, g: seq<B> -> seq<A>)
    requires n > 0
    requires forall c: seq<A> :: 0 < |c| <= n ==> Undoes(f, g, c)
    ensures Chunked(Chunked(s, n, f), n + 1, g) == s
  {
    if s != [] {
      var group, rest := s[..Min(n, |s|)], s[Min(n, |s|)..];
      assert s == group + rest && Undoes(f, g, group);
      ChunkedInverse(rest, n, f, g);
      ChunkedInverseStep(group, rest, n, f, g);
    }
  }

  lemma {:induction false} ChunkedInverseStep<A, B>(group: seq<A>, rest: seq<A>, n: nat, f: seq<A> -> seq<B>, g: seq<B> -> seq<A>)
    requires 0 < |group| <= n && (rest != [] ==> |group| == n) && Undoes(f, g, group)
    requires Chunked(Chunked(rest, n, f), n + 1, g) == rest
    ensures Chunked(f(group) + Chunked(rest, n, f), n + 1, g) == group + rest
  {
    if rest == [] {
      assert f(group) + Chunked(rest, n, f) == f(group) && group + rest == group;
      ChunkedOne(f(group), n + 1, g);
    } else {
      ChunkedCons(f(group), Chunked(rest, n, f), n + 1, g);
    }
  }

  lemma {:induction false} ChunkedCons<A, B>(group: seq<A>, rest: seq<A>, n: nat, f: seq<A> -> seq<B>)
    requires n > 0 && |group| == n
    ensures Chunked(group + rest, n, f) == f(group) + Chunked(rest, n, f)
  {
    assert (group + rest)[..n] == group && (group + rest)[n..] == rest;
  }

  // ----- arithmetic of one group

  /** The big-endian value of a byte string. */
  function Value256(b: seq<byte>): nat {
    if b == [] then 0 else 256 * Value256(b[..|b| - 1]) + b[|b| - 1]
  }

  /** The low `n` bytes of `v`, most significant first. */
  function Bytes256(v: nat, n: nat): (b: seq<byte>)
    ensures |b| == n
    decreases n
  {
    if n == 0 then [] else Bytes256(v / 256, n - 1) + [v % 256]
  }

  /** The value of a digit string, most significant digit first. */
  function Value85(d: seq<digit>): nat {
    if d == [] then 0 else 85 * Value85(d[..|d| - 1]) + d[|d| - 1]
  }

  /** The low `n` base-85 digits of `v`, most significant first. */
  function Digits85(v: nat, n: nat): (d: seq<digit>)
    ensures |d| == n
    decreases n
  {
    if n == 0 then [] else Digits85(v / 85, n - 1) + [v % 85]
  }

  /** At most four bytes, followed by zeros up to four. */
  function Padded(b: seq<byte>): (r: seq<byte>)
    ensures |r| == 4
  {
    (b + [0, 0, 0, 0])[..4]
  }

  /** At most five digits, followed by 84, the digit of '~', up to five. */
  function Filled(d: seq<digit>): (r: seq<digit>)
    ensures |r| == 5
  {
    (d + [84, 84, 84, 84, 84])[..5]
  }

  /** A group of one to four bytes becomes one digit more. */
  function EncodeGroup(b: seq<byte>): seq<digit> {
    Digits85(Value256(Padded(b)), 5)[..Min(5, |b| + 1)]
  }

  /** The decoder's accumulator multiplies and adds in 32-bit arithmetic. */
  function Accumulate(d: seq<digit>): nat {
    Value85(d) % U32
  }

  /** A group of two to five digits becomes one byte less; a single digit adds none. */
  function DecodeGroup(d: seq<digit>): seq<byte> {
    if d == [] then [] else Bytes256(Accumulate(Filled(d)), 4)[..Min(4, |d| - 1)]
  }

  function Encoding(data: seq<byte>): seq<digit> {
    Chunked(data, 4, EncodeGroup)
  }

  function Decoding(digits: seq<digit>): seq<byte> {
    Chunked(digits, 5, DecodeGroup)
  }

  // ----- text

  /** The alphabet 0-9 A-Z a-z !#$%&()*+-;<=>?@^_`{|}~, run by run. */
  function Symbol(d: digit): char {
    if d < 10 then '0' + d as char
    else if d < 36 then 'A' + (d - 10) as char
    else if d < 62 then 'a' + (d - 36) as char
    else if d == 62 then '!'
    else if d < 67 then '#' + (d - 63) as char
    else if d < 71 then '(' + (d - 67) as char
    else if d == 71 then '-'
    else if d < 78 then ';' + (d - 72) as char
    else if d < 81 then '^' + (d - 78) as char
    else '{' + (d - 81) as char
  }

  predicate InAlphabet(c: char) {
    exists d: digit :: Symbol(d) == c
  }

  ghost predicate AllInAlphabet(s: string) {
    forall c :: c in s ==> InAlphabet(c)
  }

  /** The text of a digit string. */
  function Text(digits: seq<digit>): (s: string)
    ensures |s| == |digits|
  {
    if digits == [] then [] else Text(digits[..|digits| - 1]) + [Symbol(digits[|digits| - 1])]
  }

  lemma {:induction false} TextConcat(a: seq<digit>, b: seq<digit>)
    ensures Text(a + b) == Text(a) + Text(b)
    decreases |b|
  {
    if b == [] {
      assert a + b == a;
    } else {
      TextConcat(a, b[..|b| - 1]);
      assert (a + b)[..|a + b| - 1] == a + b[..|b| - 1];
    }
  }

  lemma {:induction false} TextInAlphabet(digits: seq<digit>)
    ensures AllInAlphabet(Text(digits))
  {
    if digits != [] {
      TextInAlphabet(digits[..|digits| - 1]);
    }
  }

  /** One text spells at most one digit string: no character stands twice in the alphabet. */
  lemma {:induction false} TextInjective(a: seq<digit>, b: seq<digit>)
    requires Text(a) == Text(b)
    ensures a == b
    decreases |a|
  {
    if a != [] {
      assert |Text(a)| == |a| && |Text(b)| == |b|;
      var n := |a| - 1;
      assert Text(a)[..n] == Text(a[..n]) && Text(b)[..n] == Text(b[..n]);
      TextInjective(a[..n], b[..n]);
      assert Symbol(a[n]) == Text(a)[n] == Text(b)[n] == Symbol(b[n]);
      assert a == a[..n] + [a[n]] && b == b[..n] + [b[n]];
    }
  }

  // ----- the two programs

  /** The five digits of one block, filled from the last one back. */
  method BlockDigits(block: nat) returns (digits: seq<digit>)
    ensures digits == Digits85(block, 5)
  {
    digits := [];
    var value := block;
    var index := 5;
    while index > 0
      invariant 0 <= index <= 5
      invariant Digits85(block, 5) == Digits85(value, index) + digits
    {
      assert Digits85(value, index) + digits == Digits85(value / 85, index - 1) + ([value % 85] + digits);
      digits := [value % 85] + digits;
      value := value / 85;
      index := index - 1;
    }
  }

  method BlockText(group: seq<byte>) returns (text: string)
    requires 1 <= |group| <= 4
    ensures text == Text(EncodeGroup(group))
  {
    var digits := BlockDigits(Value256(Padded(group)));
    var encodedWidth := if |group| < 4 then |group| + 1 else 5;
    text := Text(digits[..encodedWidth]);
  }

  lemma {:induction false} NothingEncodes()
    ensures Text(Encoding([])) == []
  {
  }

  method EncodeBase85(data: seq<byte>) returns (out: string)
    ensures out == Text(Encoding(data))
  {
    hide Encoding, EncodeGroup, Text;
    NothingEncodes();
    out := [];
    var offset := 0;
    ghost var k := 0;
    while offset < |data|
      invariant offset <= |data| && (offset == 4 * k || offset == |data|)
      invariant out == Text(Encoding(data[..offset]))
      decreases |data| - offset
    {
      var width := Min(4, |data| - offset);
      ghost var group := data[offset..offset + width];
      var text := BlockText(data[offset..offset + width]);
      EncodingMore(data[..offset], group, k);
      assert data[..offset + width] == data[..offset] + group;
      out := out + text;
      offset := offset + width;
      k := k + 1;
    }
    assert data[..offset] == data;
  }

  lemma {:induction false} EncodingMore(full: seq<byte>, group: seq<byte>, k: nat)
    requires |full| == 4 * k && 0 < |group| <= 4
    ensures Text(Encoding(full + group)) == Text(Encoding(full)) + Text(EncodeGroup(group))
  {
    ChunkedAppend(full, group, k, 4, EncodeGroup);
    TextConcat(Encoding(full), EncodeGroup(group));
  }

  /** The position of a character in the alphabet, found by scanning it. */
  method DigitOf(c: char) returns (r: Result<digit, Error>)
    ensures r.Ok? ==> Symbol(r.value) == c
    ensures r.Err? ==> !InAlphabet(c) && r.error == Character
  {
    for index := 0 to 85
      invariant forall d: digit :: d < index ==> Symbol(d) != c
    {
      if Symbol(index) == c {
        return Ok(index);
      }
    }
    return Err(Character);
  }

  /** The five digits of one group, missing ones read as 84. */
  method GroupDigits(group: string) returns (r: Result<seq<digit>, Error>)
    requires 2 <= |group| <= 5
    ensures r.Err? <==> !AllInAlphabet(group)
    ensures r.Err? ==> r.error == Character
    ensures r.Ok? ==> |r.value| == 5 && Text(r.value[..|group|]) == group && r.value == Filled(r.value[..|group|])
  {
    var digits: seq<digit> := [];
    for index := 0 to |group|
      invariant Text(digits) == group[..index]
    {
      var d := DigitOf(group[index]);
      if d.Err? {
        return Err(Character);
      }
      TextConcat(digits, [d.value]);
      assert group[..index + 1] == group[..index] + [group[index]];
      digits := digits + [d.value];
    }
    assert group[..|group|] == group;
    TextInAlphabet(digits);
    ghost var read := digits;
    for index := |group| to 5
      invariant digits == (read + [84, 84, 84, 84, 84])[..index]
    {
      digits := digits + [84];
    }
    assert digits[..|group|] == read;
    return Ok(digits);
  }

  /** The bytes of one group of text, and the digits it spells. */
  method GroupBytes(group: string) returns (r: Result<seq<byte>, Error>, ghost spelt: seq<digit>)
    requires 2 <= |group| <= 5
    ensures r.Err? <==> !AllInAlphabet(group)
    ensures r.Err? ==> r.error == Character
    ensures r.Ok? ==> Text(spelt) == group && r.value == DecodeGroup(spelt)
  {
    spelt := [];
    var digits := GroupDigits(group);
    if digits.Err? {
      return Err(digits.error), [];
    }
    spelt := digits.value[..|group|];
    var bytes := Bytes256(Accumulate(digits.value), 4);
    r := Ok(bytes[..|group| - 1]);
  }

  /** A lone last character or a foreign character is refused; otherwise the
      bytes are those of the digit string the text spells. */
  method DecodeBase85(value: string) returns (r: Result<seq<byte>, Error>)
    ensures r == Err(Remainder) <==> |value| % 5 == 1
    ensures r.Ok? <==> |value| % 5 != 1 && AllInAlphabet(value)
    ensures r.Ok? ==> exists digits :: Spells(value, digits, r.value)
  {
    hide Spells, Text, Decoding, DecodeGroup, AllInAlphabet;
    if |value| % 5 == 1 {
      return Err(Remainder);
    }
    var out: seq<byte> := [];
    var offset := 0;
    ghost var read: seq<digit> := [];
    ghost var k := 0;
    NothingSpells();
    while offset < |value|
      invariant offset <= |value| && (offset == 5 * k || offset == |value|)
      invariant Spells(value[..offset], read, out)
      decreases |value| - offset
    {
      var width := Min(5, |value| - offset);
      NoLoneTail(|value|, k);
      var group := value[offset..offset + width];
      ghost var spelt;
      var bytes;
      bytes, spelt := GroupBytes(group);
      if bytes.Err? {
        ForeignPart(value, offset, offset + width);
        return Err(Character);
      }
      SpellsMore(value[..offset], read, out, group, spelt, k);
      assert value[..offset + width] == value[..offset] + group;
      read := read + spelt;
      out := out + bytes.value;
      offset := offset + width;
      k := k + 1;
    }
    assert value[..offset] == value;
    SpeltInAlphabet(value, read, out);
    return Ok(out);
  }

  /** `digits` are the alphabet positions of `value`, and `bytes` what they decode to. */
  ghost predicate Spells(value: string, digits: seq<digit>, bytes: seq<byte>) {
    value == Text(digits) && bytes == Decoding(digits)
  }

  lemma {:induction false} NothingSpells()
    ensures Spells([], [], [])
  {
  }

  lemma {:induction false} NoLoneTail(n: nat, k: nat)
    requires n % 5 != 1
    ensures n - 5 * k != 1
  {
  }

  lemma {:induction false} ForeignPart(value: string, i: nat, j: nat)
    requires i <= j <= |value| && !AllInAlphabet(value[i..j])
    ensures !AllInAlphabet(value)
  {
    assert forall c :: c in value[i..j] ==> c in value;
  }

  lemma {:induction false} SpeltInAlphabet(value: string, digits: seq<digit>, bytes: seq<byte>)
    requires Spells(value, digits, bytes)
    ensures AllInAlphabet(value)
  {
    TextInAlphabet(digits);
  }

  lemma {:induction false} SpellsMore(value: string, digits: seq<digit>, bytes: seq<byte>, group: string, spelt: seq<digit>, k: nat)
    requires Spells(value, digits, bytes) && |value| == 5 * k
    requires Text(spelt) == group && 0 < |group| <= 5
    ensures Spells(value + group, digits + spelt, bytes + DecodeGroup(spelt))
  {
    assert |digits| == |value| && |spelt| == |group|;
    ChunkedAppend(digits, spelt, k, 5, DecodeGroup);
    TextConcat(digits, spelt);
  }

  // ----- the round trip

  lemma {:induction false} Value85Digits(v: nat, n: nat)
    requires v < Power85(n)
    ensures Value85(Digits85(v, n)) == v
  {
    if n > 0 {
      Value85Digits(v / 85, n - 1);
      assert Digits85(v, n)[..n - 1] == Digits85(v / 85, n - 1);
    }
  }

  function Power85(n: nat): nat {
    if n == 0 then 1 else 85 * Power85(n - 1)
  }

  lemma {:induction false} Bytes256Value(b: seq<byte>)
    ensures Bytes256(Value256(b), |b|) == b
  {
    if b != [] {
      var init := b[..|b| - 1];
      Bytes256Value(init);
      assert Value256(b) / 256 == Value256(init) && Value256(b) % 256 == b[|b| - 1];
      assert b == init + [b[|b| - 1]];
    }
  }

  lemma {:induction false} Value256Bound(b: seq<byte>)
    ensures Value256(b) < Pow256(|b|)
  {
    if b != [] {
      Value256Bound(b[..|b| - 1]);
    }
  }

  /** `v` without its last `k` bytes, and without its last `k` base-85 digits. */
  function High256(v: nat, k: nat): nat {
    if k == 0 then v else High256(v / 256, k - 1)
  }

  function High85(v: nat, k: nat): nat {
    if k == 0 then v else High85(v / 85, k - 1)
  }

  lemma {:induction false} Bytes256Prefix(v: nat, n: nat, k: nat)
    requires k <= n
    ensures Bytes256(v, n)[..n - k] == Bytes256(High256(v, k), n - k)
    decreases k
  {
    if k > 0 {
      Bytes256Prefix(v / 256, n - 1, k - 1);
      assert Bytes256(v, n)[..n - k] == Bytes256(v / 256, n - 1)[..n - k];
    }
  }

  lemma {:induction false} Digits85Prefix(v: nat, n: nat, k: nat)
    requires k <= n
    ensures Digits85(v, n)[..n - k] == Digits85(High85(v, k), n - k)
    decreases k
  {
    if k > 0 {
      Digits85Prefix(v / 85, n - 1, k - 1);
      assert Digits85(v, n)[..n - k] == Digits85(v / 85, n - 1)[..n - k];
    }
  }

  /** `t` followed by `k` zero bytes, and by `k` zero digits. */
  function Scale256(t: nat, k: nat): nat {
    if k == 0 then t else 256 * Scale256(t, k - 1)
  }

  function Scale85(t: nat, k: nat): nat {
    if k == 0 then t else 85 * Scale85(t, k - 1)
  }

  lemma {:induction false} Scale256Add(a: nat, b: nat, k: nat)
    ensures Scale256(a + b, k) == Scale256(a, k) + Scale256(b, k)
  {
    if k > 0 { Scale256Add(a, b, k - 1); }
  }

  lemma {:induction false} Scale85Add(a: nat, b: nat, k: nat)
    ensures Scale85(a + b, k) == Scale85(a, k) + Scale85(b, k)
  {
    if k > 0 { Scale85Add(a, b, k - 1); }
  }

  lemma {:induction false} ScaleCompare(k: nat)
    ensures Scale85(1, k) <= Scale256(1, k)
  {
    if k > 0 { ScaleCompare(k - 1); }
  }

  lemma {:induction false} Scale256Power(n: nat, k: nat)
    ensures Scale256(Pow256(n), k) == Pow256(n + k)
  {
    if k > 0 { Scale256Power(n, k - 1); }
  }

  /** Everything in the interval of `t` has the high part `t`. */
  lemma {:induction false} High256Of(t: nat, x: nat, k: nat)
    requires Scale256(t, k) <= x < Scale256(t + 1, k)
    ensures High256(x, k) == t
    decreases k
  {
    if k > 0 {
      High256Of(t, x / 256, k - 1);
    }
  }

  lemma {:induction false} High85Range(v: nat, k: nat)
    ensures Scale85(High85(v, k), k) <= v < Scale85(High85(v, k) + 1, k)
    decreases k
  {
    if k > 0 {
      High85Range(v / 85, k - 1);
    }
  }

  lemma {:induction false} High85Bound(v: nat, n: nat, k: nat)
    requires k <= n && v < Power85(n)
    ensures High85(v, k) < Power85(n - k)
    decreases k
  {
    if k > 0 {
      High85Bound(v / 85, n - 1, k - 1);
    }
  }

  function Zeros(k: nat): (z: seq<byte>)
    ensures |z| == k
  {
    if k == 0 then [] else Zeros(k - 1) + [0]
  }

  function Tildes(k: nat): (z: seq<digit>)
    ensures |z| == k
  {
    if k == 0 then [] else Tildes(k - 1) + [84]
  }

  lemma {:induction false} ZerosShift(b: seq<byte>, k: nat)
    ensures Value256(b + Zeros(k)) == Scale256(Value256(b), k)
  {
    if k == 0 {
      assert b + Zeros(0) == b;
    } else {
      ZerosShift(b, k - 1);
      assert (b + Zeros(k))[..|b| + k - 1] == b + Zeros(k - 1);
    }
  }

  lemma {:induction false} TildesFill(d: seq<digit>, k: nat)
    ensures Value85(d + Tildes(k)) + 1 == Scale85(Value85(d) + 1, k)
  {
    if k == 0 {
      assert d + Tildes(0) == d;
    } else {
      TildesFill(d, k - 1);
      assert (d + Tildes(k))[..|d| + k - 1] == d + Tildes(k - 1);
    }
  }

  lemma {:induction false} FewZeros()
    ensures Zeros(0) == [] && Zeros(1) == [0] && Zeros(2) == [0, 0] && Zeros(3) == [0, 0, 0]
    ensures Tildes(0) == [] && Tildes(1) == [84] && Tildes(2) == [84, 84] && Tildes(3) == [84, 84, 84]
  {
  }

  lemma {:induction false} PaddingIsZeros(b: seq<byte>, d: seq<digit>, k: nat)
    requires k <= 3 && |b| == 4 - k && |d| == 5 - k
    ensures Padded(b) == b + Zeros(k) && Filled(d) == d + Tildes(k)
  {
    FewZeros();
    hide Zeros, Tildes;
  }

  /** The kept digits of a group, and the value they have. */
  lemma {:induction false} KeptDigits(b: seq<byte>, k: nat)
    requires k <= 3 && |b| == 4 - k
    ensures |EncodeGroup(b)| == |b| + 1
    ensures EncodeGroup(b) == Digits85(High85(Value256(Padded(b)), k), 5 - k)
    ensures Value85(EncodeGroup(b)) == High85(Value256(Padded(b)), k)
  {
    var v := Value256(Padded(b));
    Value256Bound(Padded(b));
    Digits85Prefix(v, 5, k);
    Powers();
    High85Bound(v, 5, k);
    Value85Digits(High85(v, k), 5 - k);
  }

  lemma {:induction false} Powers()
    ensures Pow256(4) == U32 < Power85(5)
  {
    Pow256Widths();
    assert Power85(5) == 85 * Power85(4) && Power85(4) == 85 * Power85(3) && Power85(3) == 85 * Power85(2);
  }

  /** The reason a short group survives: the dropped digits, read as 84, move the
      value up by less than one unit of the last kept byte (85^k < 256^k). */
  lemma {:induction false} FilledValue(b: seq<byte>, k: nat)
    requires k <= 3 && |b| == 4 - k
    ensures Scale256(Value256(b), k) <= Value85(Filled(EncodeGroup(b))) < Scale256(Value256(b) + 1, k)
  {
    var d := EncodeGroup(b);
    var v := Value256(Padded(b));
    KeptDigits(b, k);
    PaddingIsZeros(b, d, k);
    ZerosShift(b, k);
    High85Range(v, k);
    TildesFill(d, k);
    Scale85Add(High85(v, k), 1, k);
    Scale256Add(Value256(b), 1, k);
    ScaleCompare(k);
  }

  lemma {:induction false} Scale256Monotone(s: nat, t: nat, k: nat)
    requires s <= t
    ensures Scale256(s, k) <= Scale256(t, k)
  {
    if k > 0 { Scale256Monotone(s, t, k - 1); }
  }

  /** The accumulator of an encoded group does not wrap. */
  lemma {:induction false} NoWrap(b: seq<byte>)
    requires 1 <= |b| <= 4
    ensures Value85(Filled(EncodeGroup(b))) < U32
    ensures Accumulate(Filled(EncodeGroup(b))) == Value85(Filled(EncodeGroup(b)))
  {
    var k := 4 - |b|;
    FilledValue(b, k);
    Value256Bound(b);
    Scale256Power(4 - k, k);
    Scale256Monotone(Value256(b) + 1, Pow256(4 - k), k);
    Powers();
  }

  /** The top bytes of any value in the interval of `b` are `b`. */
  lemma {:induction false} TopBytes(b: seq<byte>, a: nat, k: nat)
    requires k <= 3 && |b| == 4 - k
    requires Scale256(Value256(b), k) <= a < Scale256(Value256(b) + 1, k)
    ensures Bytes256(a, 4)[..4 - k] == b
  {
    High256Of(Value256(b), a, k);
    Bytes256Prefix(a, 4, k);
    Bytes256Value(b);
  }

  /** One group comes back. */
  lemma {:induction false} GroupRoundTrip(b: seq<byte>)
    requires 1 <= |b| <= 4
    ensures Undoes(EncodeGroup, DecodeGroup, b)
  {
    var k := 4 - |b|;
    var d := EncodeGroup(b);
    KeptDigits(b, k);
    FilledValue(b, k);
    NoWrap(b);
    TopBytes(b, Accumulate(Filled(d)), k);
    GroupBack(b, d);
  }

  lemma {:induction false} GroupBack(b: seq<byte>, d: seq<digit>)
    requires 1 <= |b| <= 4 && |d| == |b| + 1
    requires Bytes256(Accumulate(Filled(d)), 4)[..|b|] == b
    ensures DecodeGroup(d) == b
  {
  }

  lemma {:induction false} EveryGroup()
    ensures forall c: seq<byte> :: 0 < |c| <= 4 ==> Undoes(EncodeGroup, DecodeGroup, c)
  {
    forall c: seq<byte> | 0 < |c| <= 4 ensures Undoes(EncodeGroup, DecodeGroup, c) {
      GroupRoundTrip(c);
    }
  }

  /** Every byte string of every length comes back from its digits. */
  lemma {:induction false} RoundTrip(data: seq<byte>)
    ensures Decoding(Encoding(data)) == data
    ensures |Encoding(data)| % 5 != 1
  {
    EveryGroup();
    ChunkedInverse(data, 4, EncodeGroup, DecodeGroup);
    EncodingLength(data);
    NeverOneOver(|data|);
  }

  /** Five digits for every four bytes, one more than the bytes for a short tail. */
  function EncodedLength(n: nat): nat {
    if n >= 4 then 5 + EncodedLength(n - 4) else if n == 0 then 0 else n + 1
  }

  lemma {:induction false} NeverOneOver(n: nat)
    ensures EncodedLength(n) % 5 != 1
  {
    if n >= 4 {
      NeverOneOver(n - 4);
      assert (5 + EncodedLength(n - 4)) % 5 == EncodedLength(n - 4) % 5;
    }
  }

  lemma {:induction false} EncodingLength(data: seq<byte>)
    ensures |Encoding(data)| == EncodedLength(|data|)
  {
    hide EncodeGroup;
    if data != [] {
      var width := Min(4, |data|);
      KeptDigits(data[..width], 4 - width);
      assert |Encoding(data)| == |EncodeGroup(data[..width])| + |Encoding(data[width..])|;
      EncodingLength(data[width..]);
    }
  }

  /** The two programs undo each other: decoding the encoder's text gives the bytes back. */
  method ThereAndBack(data: seq<byte>) returns (r: Result<seq<byte>, Error>)
    ensures r == Ok(data)
  {
    var text := EncodeBase85(data);
    r := DecodeBase85(text);
    RoundTrip(data);
    TextInAlphabet(Encoding(data));
    forall digits | Text(digits) == text ensures digits == Encoding(data) {
      TextInjective(digits, Encoding(data));
    }
  }
}
