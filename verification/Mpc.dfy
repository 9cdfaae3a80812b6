/** The LNPBP-4 multi-protocol commitment: one leaf per protocol, at a position
    the protocol id dictates, in a tree whose size is committed. */
module Mpc {
  import opened Bytes
  import opened Merkle
  import opened Symbols
  import opened Wrappers

  datatype Proof = Proof(position: nat, cofactor: nat, path: seq<Digest>)

  datatype Error = InvalidMpcProof | Entropy

  /** The position of a protocol in a row of `width` leaves. */
  function ProtocolPosition(c: Crypto, protocol: Digest, width: nat): (p: nat)
    requires width > 0
    ensures p < width
  {
    c.number(protocol) % width
  }

  /** The factored width is a 32-bit difference: a cofactor above the width wraps. */
  function FactoredWidth(depth: nat, cofactor: nat): nat {
    (Pow2(depth) - cofactor) % U32
  }

  function LeafRecord(protocol: Digest, message: Digest): seq<Sym> {
    [B(0x10), D(protocol), D(message)]
  }

  /** The bits of a position, most significant first. */
  function Bits(position: nat, depth: nat): (bits: seq<bool>)
    ensures |bits| == depth
    decreases depth
  {
    if depth == 0 then [] else Bits(position / 2, depth - 1) + [position % 2 == 1]
  }

  function Commitment(depth: byte, cofactor: nat, root: Digest): Digest {
    Hash(MpcCommitment, [B(depth)] + LE(cofactor, 2) + [D(root)])
  }

  predicate WellPlaced(c: Crypto, proof: Proof, protocol: Digest) {
    && |proof.path| <= 31
    && FactoredWidth(|proof.path|, proof.cofactor) != 0
    && proof.position < Pow2(|proof.path|)
    && ProtocolPosition(c, protocol, FactoredWidth(|proof.path|, proof.cofactor)) == proof.position
  }

  /** What a proof commits to: the root reached from the protocol's leaf. */
  function Convolution(c: Crypto, proof: Proof, protocol: Digest, message: Digest): Result<Digest, Error> {
    if !WellPlaced(c, proof, protocol) then Err(InvalidMpcProof)
    else
      var depth := |proof.path|;
      Ok(Commitment(depth, proof.cofactor,
                    Climb(proof.path, Bits(proof.position, depth), 0, Pow2(depth), LeafHash(LeafRecord(protocol, message)))))
  }

  method ConvolveMPC(c: Crypto, proof: Proof, protocol: Digest, message: Digest) returns (r: Result<Digest, Error>)
    ensures r == Convolution(c, proof, protocol, message)
  {
    var depth := |proof.path|;
    if depth > 31 {
      return Err(InvalidMpcProof);
    }
    var width := Pow2(depth);
    var factoredWidth := (width - proof.cofactor) % U32;
    if factoredWidth == 0 || proof.position >= width || ProtocolPosition(c, protocol, factoredWidth) != proof.position {
      return Err(InvalidMpcProof);
    }
    var leaf := LeafHash(LeafRecord(protocol, message));
    var current := ClimbUp(proof.path, proof.position, width, leaf);
    return Ok(Commitment(depth, proof.cofactor, current));
  }

  /** The loop of the convolution: from the last partner up to the first. */
  method ClimbUp(path: seq<Digest>, position: nat, width: nat, leaf: Digest) returns (current: Digest)
    requires |path| <= 31
    ensures current == Climb(path, Bits(position, |path|), 0, width, leaf)
  {
    hide Climb, Bits, ShiftRight, BranchHash;
    ClimbNothing(width, leaf, |path|);
    current := leaf;
    ghost var bits := Bits(position, |path|);
    var index := |path| - 1;
    assert path[|path|..] == [] && bits[|path|..] == [];
    while index >= 0
      invariant -1 <= index < |path|
      invariant current == Climb(path[index + 1..], bits[index + 1..], index + 1, width, leaf)
    {
      var partner := path[index];
      BitsAt(position, |path|, index);
      ClimbStep(path[index..], bits[index..], index, width, leaf);
      assert path[index..][1..] == path[index + 1..] && bits[index..][1..] == bits[index + 1..];
      if ShiftRight(position, |path| - 1 - index) % 2 == 0 {
        current := BranchHash(index, width, current, partner);
      } else {
        current := BranchHash(index, width, partner, current);
      }
      index := index - 1;
    }
    assert path[0..] == path && bits[0..] == bits;
  }

  lemma {:induction false} ClimbNothing(width: nat, leaf: Digest, depth: nat)
    requires depth <= 255
    ensures Climb([], [], depth, width, leaf) == leaf
  {
  }

  function ShiftRight(v: nat, k: nat): nat {
    if k == 0 then v else ShiftRight(v / 2, k - 1)
  }

  /** Reading a bit by shifting is reading it off the bit string. */
  lemma {:induction false} BitsAt(position: nat, depth: nat, index: nat)
    requires index < depth
    ensures Bits(position, depth)[index] <==> ShiftRight(position, depth - 1 - index) % 2 == 1
    decreases depth
  {
    if index < depth - 1 {
      BitsAt(position / 2, depth - 1, index);
    }
  }

  /** The bits of a position below 2^depth spell the position. */
  lemma {:induction false} BitsSpell(position: nat, depth: nat)
    requires position < Pow2(depth)
    ensures BitsValue(Bits(position, depth)) == position
    decreases depth
  {
    if depth > 0 {
      BitsSpell(position / 2, depth - 1);
      BitsValueAppend(Bits(position / 2, depth - 1), position % 2 == 1);
    }
  }

  lemma {:induction false} BitsValueAppend(bits: seq<bool>, last: bool)
    ensures BitsValue(bits + [last]) == 2 * BitsValue(bits) + if last then 1 else 0
  {
    if bits == [] {
      assert [last][1..] == [];
    } else {
      BitsValueAppend(bits[1..], last);
      assert (bits + [last])[1..] == bits[1..] + [last];
    }
  }

  /** Completeness: in any full tree, the leaf of a protocol that sits where its
      id dictates is proved by its sibling subtrees, against the root of all leaves. */
  lemma {:induction false} TreeProvesItsLeaves(c: Crypto, leaves: seq<Digest>, depth: nat, cofactor: nat, protocol: Digest, message: Digest)
    requires depth <= 31 && |leaves| == Pow2(depth) && FactoredWidth(depth, cofactor) != 0
    requires ProtocolPosition(c, protocol, FactoredWidth(depth, cofactor)) < |leaves|
    requires leaves[ProtocolPosition(c, protocol, FactoredWidth(depth, cofactor))] == LeafHash(LeafRecord(protocol, message))
    ensures var position := ProtocolPosition(c, protocol, FactoredWidth(depth, cofactor));
            var path := Siblings(leaves, Bits(position, depth), 0, |leaves|);
            Convolution(c, Proof(position, cofactor, path), protocol, message) ==
            Ok(Commitment(depth, cofactor, MerkleRoot(leaves)))
  {
    var position := ProtocolPosition(c, protocol, FactoredWidth(depth, cofactor));
    BitsSpell(position, depth);
    ClimbReachesRoot(leaves, Bits(position, depth), 0, |leaves|);
  }

  lemma {:induction false} Pow2Bound(depth: nat, limit: nat)
    requires depth <= limit
    ensures Pow2(depth) <= Pow2(limit)
    decreases limit - depth
  {
    if depth < limit { Pow2Bound(depth + 1, limit); }
  }

  lemma {:induction false} WidthFits(depth: nat)
    requires depth <= 31
    ensures Pow2(depth) < U32
  {
    Pow2Bound(depth, 32);
    PowEight(0);
    PowEight(8);
    PowEight(16);
    PowEight(24);
    Pow2Bound(depth, 31);
    assert Pow2(32) == 2 * Pow2(31);
  }

  lemma {:induction false} PowEight(n: nat)
    ensures Pow2(n + 8) == 0x100 * Pow2(n)
  {
    assert Pow2(n + 8) == 4 * Pow2(n + 6) && Pow2(n + 6) == 4 * Pow2(n + 4) && Pow2(n + 4) == 4 * Pow2(n + 2);
  }

  /** Anchor binding: one commitment opens for one protocol to one message, by one proof. */
  lemma {:induction false} ConvolutionBinds(c: Crypto, p: Proof, q: Proof, protocol: Digest, m: Digest, n: Digest)
    requires p.cofactor < U16 && q.cofactor < U16
    requires Convolution(c, p, protocol, m).Ok? && Convolution(c, p, protocol, m) == Convolution(c, q, protocol, n)
    ensures m == n && p == q
  {
    var depth := |p.path|;
    var a := Climb(p.path, Bits(p.position, depth), 0, Pow2(depth), LeafHash(LeafRecord(protocol, m)));
    var b := Climb(q.path, Bits(q.position, |q.path|), 0, Pow2(|q.path|), LeafHash(LeafRecord(protocol, n)));
    CommitmentInjective(depth, p.cofactor, a, |q.path|, q.cofactor, b);
    WidthFits(depth);
    ClimbInjective(p.path, q.path, Bits(p.position, depth), 0, Pow2(depth),
                   LeafHash(LeafRecord(protocol, m)), LeafHash(LeafRecord(protocol, n)));
    assert LeafRecord(protocol, m)[2] == LeafRecord(protocol, n)[2];
  }

  lemma {:induction false} CommitmentInjective(d: byte, f: nat, a: Digest, d': byte, f': nat, a': Digest)
    requires f < U16 && f' < U16 && Commitment(d, f, a) == Commitment(d', f', a')
    ensures d == d' && f == f' && a == a'
  {
    var x, y := [B(d)] + LE(f, 2) + [D(a)], [B(d')] + LE(f', 2) + [D(a')];
    assert x[0] == B(d) && y[0] == B(d') && x[3] == D(a) && y[3] == D(a');
    assert x[1..3] == LE(f, 2) && y[1..3] == LE(f', 2);
    Pow256Widths();
    LEInjective(f, f', 2);
  }

  /** Fills the path in place from the reader, one digest at a time. */
  method FillPath(path: array<Digest>, entropy: seq<Digest>) returns (ok: bool)
    modifies path
    ensures ok <==> |entropy| >= path.Length
    ensures ok ==> path[..] == entropy[..path.Length]
  {
    for index := 0 to path.Length
      invariant index <= |entropy| && path[..index] == entropy[..index]
    {
      if index >= |entropy| {
        return false;
      }
      path[index] := entropy[index];
    }
    assert path[..] == path[..path.Length];
    return true;
  }

  /** A single-protocol proof whose partner subtrees are read from `entropy`. */
  method NewMPCProofFrom(c: Crypto, protocol: Digest, depth: nat, entropy: Option<seq<Digest>>)
    returns (r: Result<Proof, Error>)
    ensures depth > 31 || entropy.None? ==> r == Err(InvalidMpcProof)
    ensures depth <= 31 && entropy.Some? && |entropy.value| < depth ==> r == Err(Entropy)
    ensures depth <= 31 && entropy.Some? && |entropy.value| >= depth ==>
              r == Ok(Proof(ProtocolPosition(c, protocol, Pow2(depth)), 0, entropy.value[..depth]))
  {
    if depth > 31 || entropy.None? {
      return Err(InvalidMpcProof);
    }
    var path := new Digest[depth](i => ZERO);
    var ok := FillPath(path, entropy.value);
    if !ok {
      return Err(Entropy);
    }
    return Ok(Proof(ProtocolPosition(c, protocol, Pow2(depth)), 0, path[..]));
  }

  /** Whatever the partner subtrees, a fresh proof convolves with every message. */
  lemma {:induction false} FreshProofConvolves(c: Crypto, protocol: Digest, path: seq<Digest>, message: Digest)
    requires |path| <= 31
    ensures Convolution(c, Proof(ProtocolPosition(c, protocol, Pow2(|path|)), 0, path), protocol, message).Ok?
  {
    hide Commitment, Climb, Bits, LeafHash, LeafRecord;
    WidthFits(|path|);
    assert FactoredWidth(|path|, 0) == Pow2(|path|);
    assert WellPlaced(c, Proof(ProtocolPosition(c, protocol, Pow2(|path|)), 0, path), protocol);
  }
}
