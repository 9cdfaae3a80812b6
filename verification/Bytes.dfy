/** Bytes and fixed-width little-endian integers. */
module Bytes {
  type byte = b: int | 0 <= b < 256

  const U8: nat := 0x100
  const U16: nat := 0x1_0000
  const U24: nat := 0x100_0000
  const U32: nat := 0x1_0000_0000
  const U64: nat := 0x1_0000_0000_0000_0000

  type u64 = n: nat | n < U64

  function Repeat(b: byte, n: nat): (r: seq<byte>)
    ensures |r| == n
    ensures forall i :: 0 <= i < n ==> r[i] == b
  {
    if n == 0 then [] else [b] + Repeat(b, n - 1)
  }

  function Pow256(width: nat): (p: nat)
    ensures p > 0
  {
    if width == 0 then 1 else 256 * Pow256(width - 1)
  }

  lemma {:induction false} Pow256Widths()
    ensures Pow256(1) == U8 && Pow256(2) == U16 && Pow256(3) == U24 && Pow256(4) == U32 && Pow256(8) == U64
  {
    assert Pow256(4) == 256 * Pow256(3) && Pow256(3) == 256 * Pow256(2);
    assert Pow256(8) == 256 * Pow256(7) && Pow256(7) == 256 * Pow256(6);
    assert Pow256(6) == 256 * Pow256(5) && Pow256(5) == 256 * Pow256(4);
  }

  /** The low `width` bytes of `v`, least significant first. */
  function LittleEndian(v: nat, width: nat): (r: seq<byte>)
    ensures |r| == width
    decreases width
  {
    if width == 0 then [] else [v % 256] + LittleEndian(v / 256, width - 1)
  }

  function FromLittleEndian(raw: seq<byte>): (v: nat)
    ensures v < Pow256(|raw|)
  {
    if raw == [] then 0 else raw[0] + 256 * FromLittleEndian(raw[1..])
  }

  /** Reading back what was written gives the value modulo the width. */
  lemma {:induction false} ReadWritten(v: nat, width: nat)
    requires v < Pow256(width)
    ensures FromLittleEndian(LittleEndian(v, width)) == v
    decreases width
  {
    if width > 0 {
      ReadWritten(v / 256, width - 1);
      assert LittleEndian(v, width)[1..] == LittleEndian(v / 256, width - 1);
    }
  }

  lemma {:induction false} WriteRead(raw: seq<byte>)
    ensures LittleEndian(FromLittleEndian(raw), |raw|) == raw
  {
    if raw != [] {
      WriteRead(raw[1..]);
      assert FromLittleEndian(raw) % 256 == raw[0] && FromLittleEndian(raw) / 256 == FromLittleEndian(raw[1..]);
    }
  }

  lemma {:induction false} LittleEndianInjective(v: nat, w: nat, width: nat)
    requires v < Pow256(width) && w < Pow256(width)
    requires LittleEndian(v, width) == LittleEndian(w, width)
    ensures v == w
  {
    ReadWritten(v, width);
    ReadWritten(w, width);
  }
}
