/** Base85 text written out: the alphabet, the arithmetic of one group, and how groups follow one another. */
module Base85Shape {
  import opened Base85
  import opened Bytes
  import opened Wrappers

  const NUMERALS: string := "0123456789"
  const CAPITALS: string := "ABCDEFGHIJKLMNOPQRSTUVWXYZ"
  const LETTERS: string := "abcdefghijklmnopqrstuvwxyz"
  const MARKS: string := "!#$%&()*+-;<=>?@^_`{|}~"

  const ALPHABET: string := NUMERALS + CAPITALS + LETTERS + MARKS

  /** Digit `d` is character `d` of the alphabet. */
  lemma {:induction false} AlphabetIs(d: digit)
    ensures |ALPHABET| == 85
    ensures Symbol(d) == ALPHABET[d]
  {
    Numerals(d);
    Capitals(d);
    Letters(d);
    Marks(d);
    hide Symbol;
    assert |NUMERALS| == 10 && |CAPITALS| == 26 && |LETTERS| == 26 && |MARKS| == 23;
  }

  lemma {:induction false} Numerals(d: digit)
    ensures d < 10 ==> Symbol(d) == NUMERALS[d]
  {
  }

  lemma {:induction false} Capitals(d: digit)
    ensures 10 <= d < 36 ==> Symbol(d) == CAPITALS[d - 10]
  {
  }

  lemma {:induction false} Letters(d: digit)
    ensures 36 <= d < 62 ==> Symbol(d) == LETTERS[d - 36]
  {
  }

  lemma {:induction false} Marks(d: digit)
    ensures 62 <= d ==> Symbol(d) == MARKS[d - 62]
  {
  }

  /** The text of digits is their characters in order. */
  lemma {:induction false} TextAt(digits: seq<digit>, i: nat)
    requires i < |digits|
    ensures Text(digits)[i] == ALPHABET[digits[i]]
    decreases |digits|
  {
    AlphabetIs(digits[i]);
    if i < |digits| - 1 {
      TextAt(digits[..|digits| - 1], i);
    }
  }

  /** The number of four bytes, most significant first. */
  function OfBytes(a: nat, b: nat, c: nat, d: nat): nat {
    a * 16777216 + b * 65536 + c * 256 + d
  }

  /** The number of five digits, most significant first. */
  function OfDigits(a: nat, b: nat, c: nat, d: nat, e: nat): nat {
    a * 52200625 + b * 614125 + c * 7225 + d * 85 + e
  }

  function FiveDigits(d: seq<digit>): nat
    requires |d| == 5
  {
    OfDigits(d[0], d[1], d[2], d[3], d[4])
  }

  lemma {:induction false} FourBytesValue(a: byte, b: byte, c: byte, d: byte)
    ensures Value256([a, b, c, d]) == OfBytes(a, b, c, d)
  {
    assert [a, b, c, d][..3] == [a, b, c] && [a, b, c][..2] == [a, b] && [a, b][..1] == [a] && [a][..0] == [];
    assert Value256([a]) == a && Value256([a, b]) == 256 * Value256([a]) + b;
    assert Value256([a, b, c]) == 256 * Value256([a, b]) + c;
    assert Value256([a, b, c, d]) == 256 * Value256([a, b, c]) + d;
  }

  lemma {:induction false} FiveDigitsOf(v: nat)
    requires v < 85 * 52200625
    ensures FiveDigits(Digits85(v, 5)) == v
  {
    var a := v / 85;
    var b := a / 85;
    var c := b / 85;
    var d := c / 85;
    assert Digits85(d, 1) == [d % 85] && d < 85;
    assert Digits85(c, 2) == [d, c % 85];
    assert Digits85(b, 3) == [d, c % 85, b % 85];
    assert Digits85(a, 4) == [d, c % 85, b % 85, a % 85];
    assert Digits85(v, 5) == [d, c % 85, b % 85, a % 85, v % 85];
  }

  /** A full group of four bytes is written as the five digits of its number. */
  lemma {:induction false} FullGroup(a: byte, b: byte, c: byte, d: byte)
    ensures |EncodeGroup([a, b, c, d])| == 5 && FiveDigits(EncodeGroup([a, b, c, d])) == OfBytes(a, b, c, d)
  {
    FourBytesValue(a, b, c, d);
    assert Padded([a, b, c, d]) == [a, b, c, d];
    FiveDigitsOf(Value256([a, b, c, d]));
    assert Digits85(Value256([a, b, c, d]), 5)[..5] == Digits85(Value256([a, b, c, d]), 5);
  }

  /** A short group is written as the leading digits of the group filled up with zero bytes, one more than its bytes. */
  lemma {:induction false} ShortGroup(group: seq<byte>)
    requires 1 <= |group| <= 3
    ensures EncodeGroup(group) == EncodeGroup(group + Repeat(0, 4 - |group|))[..|group| + 1]
  {
    var full := group + Repeat(0, 4 - |group|);
    assert Padded(group) == full && Padded(full) == full;
  }

  lemma {:induction false} FourLowBytes(v: nat)
    requires v < 0x1_0000_0000
    ensures Bytes256(v, 4) == [v / 16777216, v / 65536 % 256, v / 256 % 256, v % 256]
  {
    var a := v / 256;
    var b := a / 256;
    var c := b / 256;
    assert c == v / 16777216 && b == v / 65536;
    assert Bytes256(c, 1) == [c % 256] && c < 256;
    assert Bytes256(b, 2) == Bytes256(c, 1) + [b % 256];
    assert Bytes256(a, 3) == Bytes256(b, 2) + [a % 256];
    assert Bytes256(v, 4) == Bytes256(a, 3) + [v % 256];
  }

  lemma {:induction false} FiveDigitsValue(d: seq<digit>)
    requires |d| == 5
    ensures Value85(d) == FiveDigits(d)
  {
    var a, b, c, e := d[..4], d[..3], d[..2], d[..1];
    assert a[..3] == b && b[..2] == c && c[..1] == e && e[..0] == [];
    assert Value85(e) == d[0] && Value85(c) == 85 * Value85(e) + d[1] && Value85(b) == 85 * Value85(c) + d[2];
    assert Value85(a) == 85 * Value85(b) + d[3] && Value85(d) == 85 * Value85(a) + d[4];
  }

  /** A group of two to five digits is read as the leading bytes, one less than its digits, of the
      number of the group filled up with digit 84; a number of more than 32 bits wraps. */
  lemma {:induction false} GroupReads(d: seq<digit>, full: seq<digit>)
    requires 2 <= |d| <= 5 && |full| == 5 && full[..|d|] == d && forall i :: |d| <= i < 5 ==> full[i] == 84
    ensures var v := FiveDigits(full) % 0x1_0000_0000;
            DecodeGroup(d) == [v / 16777216, v / 65536 % 256, v / 256 % 256, v % 256][..|d| - 1]
  {
    assert Filled(d) == full by {
      assert forall i :: 0 <= i < |d| ==> full[i] == full[..|d|][i];
    }
    FiveDigitsValue(full);
    FourLowBytes(FiveDigits(full) % 0x1_0000_0000);
  }

  /** Groups are written, and read, one after the other: four bytes, five digits, and the rest. */
  lemma {:induction false} GroupByGroup(group: seq<byte>, rest: seq<byte>, digits: seq<digit>, others: seq<digit>)
    requires |group| == 4 && |digits| == 5
    ensures Encoding(group + rest) == EncodeGroup(group) + Encoding(rest)
    ensures Decoding(digits + others) == DecodeGroup(digits) + Decoding(others)
    ensures |rest| <= 4 ==> Encoding(rest) == if rest == [] then [] else EncodeGroup(rest)
    ensures |others| <= 5 ==> Decoding(others) == if others == [] then [] else DecodeGroup(others)
  {
    ChunkedCons(group, rest, 4, EncodeGroup);
    ChunkedCons(digits, others, 5, DecodeGroup);
    if 0 < |rest| <= 4 { ChunkedOne(rest, 4, EncodeGroup); }
    if 0 < |others| <= 5 { ChunkedOne(others, 5, DecodeGroup); }
  }
}
