/** The LNPBP-81 Merkle tree behind operation and multi-protocol commitments. */
module Merkle {
  import opened Bytes
  import opened Symbols

  const VIRTUAL_LEAF: Digest := Raw(Repeat(0xff, 32))

  function LeafHash(encoded: seq<Sym>): Digest {
    Hash(MerkleNode, encoded)
  }

  /** The record of a node: branching, depth, the base width as a 256-bit
      little-endian integer, and the two children. */
  function NodeRecord(branching: byte, depth: byte, width: nat, left: Digest, right: Digest): (r: seq<Sym>)
    ensures |r| == 36
  {
    [B(branching), B(depth)] + LE(width, 4) + Plain(Repeat(0, 28)) + [D(left), D(right)]
  }

  function Node(branching: byte, depth: byte, width: nat, left: Digest, right: Digest): Digest {
    Hash(MerkleNode, NodeRecord(branching, depth, width, left, right))
  }

  function BranchHash(depth: byte, width: nat, left: Digest, right: Digest): Digest {
    Node(2, depth, width, left, right)
  }

  /** The subtree over `leaves` at `depth` in a tree of `baseWidth` leaves; the
      depth is an 8-bit counter. */
  function Merklize(leaves: seq<Digest>, depth: byte, baseWidth: nat): Digest {
    if |leaves| == 0 then Node(0, depth, baseWidth, VIRTUAL_LEAF, VIRTUAL_LEAF)
    else if |leaves| == 1 then Node(1, depth, baseWidth, leaves[0], VIRTUAL_LEAF)
    else if |leaves| == 2 then Node(2, depth, baseWidth, leaves[0], leaves[1])
    else
      var leftWidth := |leaves| / 2 + |leaves| % 2;
      Node(2, depth, baseWidth,
           Merklize(leaves[..leftWidth], (depth + 1) % 256, baseWidth),
           Merklize(leaves[leftWidth..], (depth + 1) % 256, baseWidth))
  }

  function MerkleRoot(leaves: seq<Digest>): Digest {
    if |leaves| == 1 then leaves[0] else Merklize(leaves, 0, |leaves|)
  }

  /** The fields of a node record, by position. */
  lemma {:induction false} RecordFields(b: byte, d: byte, w: nat, l: Digest, r: Digest)
    ensures var x := NodeRecord(b, d, w, l, r);
            x[0] == B(b) && x[1] == B(d) && x[2..6] == LE(w, 4) && x[34] == D(l) && x[35] == D(r)
  {
    hide LE;
  }

  lemma {:induction false} NodeInjective(b: byte, d: byte, w: nat, l: Digest, r: Digest, b': byte, d': byte, w': nat, l': Digest, r': Digest)
    requires w < U32 && w' < U32
    requires Node(b, d, w, l, r) == Node(b', d', w', l', r')
    ensures b == b' && d == d' && w == w' && l == l' && r == r'
  {
    hide NodeRecord, LE;
    RecordFields(b, d, w, l, r);
    RecordFields(b', d', w', l', r');
    Pow256Widths();
    LEInjective(w, w', 4);
  }

  /** Every node of a subtree carries the base width. */
  lemma {:induction false} MerklizeWidth(a: seq<Digest>, da: byte, wa: nat, b: seq<Digest>, db: byte, wb: nat)
    requires wa < U32 && wb < U32
    requires Merklize(a, da, wa) == Merklize(b, db, wb)
    ensures wa == wb && da == db
  {
    hide Node;
    var l, r := TopNode(a, da, wa), TopNode(b, db, wb);
    NodeInjective(l.0, da, wa, l.1, l.2, r.0, db, wb, r.1, r.2);
  }

  function TopNode(leaves: seq<Digest>, depth: byte, width: nat): (n: (byte, Digest, Digest))
    ensures Merklize(leaves, depth, width) == Node(n.0, depth, width, n.1, n.2)
  {
    if |leaves| == 0 then (0, VIRTUAL_LEAF, VIRTUAL_LEAF)
    else if |leaves| == 1 then (1, leaves[0], VIRTUAL_LEAF)
    else if |leaves| == 2 then (2, leaves[0], leaves[1])
    else
      var leftWidth := |leaves| / 2 + |leaves| % 2;
      (2, Merklize(leaves[..leftWidth], (depth + 1) % 256, width), Merklize(leaves[leftWidth..], (depth + 1) % 256, width))
  }

  /** Subtrees of one size determine their leaves. */
  lemma {:induction false} MerklizeInjective(a: seq<Digest>, b: seq<Digest>, depth: byte, width: nat)
    requires |a| == |b| && width < U32
    requires Merklize(a, depth, width) == Merklize(b, depth, width)
    ensures a == b
    decreases |a|
  {
    hide Node;
    var n, m := TopNode(a, depth, width), TopNode(b, depth, width);
    NodeInjective(n.0, depth, width, n.1, n.2, m.0, depth, width, m.1, m.2);
    if |a| > 2 {
      var leftWidth := |a| / 2 + |a| % 2;
      MerklizeInjective(a[..leftWidth], b[..leftWidth], (depth + 1) % 256, width);
      MerklizeInjective(a[leftWidth..], b[leftWidth..], (depth + 1) % 256, width);
      assert a == a[..leftWidth] + a[leftWidth..] && b == b[..leftWidth] + b[leftWidth..];
    }
  }

  /** Two leaf lists have one root exactly when they are equal, or when one of
      them is the single leaf that is the other one's root. */
  lemma {:induction false} RootsAgree(a: seq<Digest>, b: seq<Digest>)
    requires |a| < U32 && |b| < U32
    ensures MerkleRoot(a) == MerkleRoot(b) <==>
            a == b || (|a| == 1 && a[0] == MerkleRoot(b)) || (|b| == 1 && b[0] == MerkleRoot(a))
  {
    hide Node;
    if |a| != 1 && |b| != 1 && MerkleRoot(a) == MerkleRoot(b) {
      MerklizeWidth(a, 0, |a|, b, 0, |b|);
      MerklizeInjective(a, b, 0, |a|);
    }
  }

  /** The record whose hash is the root of other than one leaf. */
  function TopRecord(leaves: seq<Digest>): seq<Sym> {
    var n := TopNode(leaves, 0, |leaves|);
    NodeRecord(n.0, 0, |leaves|, n.1, n.2)
  }

  lemma {:induction false} RootIsTop(leaves: seq<Digest>)
    requires |leaves| != 1
    ensures MerkleRoot(leaves) == LeafHash(TopRecord(leaves))
  {
  }

  /** The leaves of encoded records. */
  function Leaves(records: seq<seq<Sym>>): (r: seq<Digest>)
    ensures |r| == |records|
    ensures forall i :: 0 <= i < |r| ==> r[i] == LeafHash(records[i])
  {
    seq(|records|, i requires 0 <= i < |records| => LeafHash(records[i]))
  }

  /** The record reads as the top node of the other records: leaves and nodes are
      hashed under one tag. */
  predicate IsTop(record: seq<Sym>, others: seq<seq<Sym>>) {
    |others| != 1 && record == TopRecord(Leaves(others))
  }

  /** A single record that has the root of the others. */
  predicate Masks(a: seq<seq<Sym>>, b: seq<seq<Sym>>) {
    |a| == 1 && IsTop(a[0], b)
  }

  /** Two lists of records of any lengths have one root exactly when they are equal
      or one is a single record that is the top node of the other. */
  lemma {:induction false} RootBinds(a: seq<seq<Sym>>, b: seq<seq<Sym>>)
    requires |a| < U32 && |b| < U32
    ensures MerkleRoot(Leaves(a)) == MerkleRoot(Leaves(b)) <==> a == b || Masks(a, b) || Masks(b, a)
  {
    hide TopRecord;
    RootsAgree(Leaves(a), Leaves(b));
    MasksMeans(a, b);
    MasksMeans(b, a);
    if Leaves(a) == Leaves(b) {
      forall i | 0 <= i < |a| ensures a[i] == b[i] {
        assert Leaves(a)[i] == Leaves(b)[i];
      }
    }
  }

  lemma {:induction false} MasksMeans(a: seq<seq<Sym>>, b: seq<seq<Sym>>)
    ensures Masks(a, b) ==> |a| == 1 && Leaves(a)[0] == MerkleRoot(Leaves(b))
    ensures |a| == 1 && Leaves(a)[0] == MerkleRoot(Leaves(b)) ==> a == b || Masks(a, b)
  {
    hide TopRecord;
    if |b| != 1 {
      RootIsTop(Leaves(b));
    }
  }

  // ----- inclusion in a full binary tree

  function Pow2(n: nat): (p: nat)
    ensures p > 0
  {
    if n == 0 then 1 else 2 * Pow2(n - 1)
  }

  /** The commitment of a full subtree of 2^k leaves; a single leaf stands for itself. */
  function Subtree(leaves: seq<Digest>, depth: byte, width: nat): Digest {
    if |leaves| == 1 then leaves[0] else Merklize(leaves, depth, width)
  }

  /** Climbing from a leaf to the top of the subtree at `depth`: `path` holds the
      sibling at each level and `bits` whether the leaf is under the right child,
      both from the top down. */
  function Climb(path: seq<Digest>, bits: seq<bool>, depth: nat, width: nat, leaf: Digest): Digest
    requires |path| == |bits| && depth + |path| <= 255
  {
    if path == [] then leaf
    else
      var inner := Climb(path[1..], bits[1..], depth + 1, width, leaf);
      if bits[0] then BranchHash(depth, width, path[0], inner) else BranchHash(depth, width, inner, path[0])
  }

  /** The siblings met on the way from the root of 2^|bits| leaves to the leaf at `bits`. */
  function Siblings(leaves: seq<Digest>, bits: seq<bool>, depth: nat, width: nat): (path: seq<Digest>)
    requires |leaves| == Pow2(|bits|) && depth + |bits| <= 255
    ensures |path| == |bits|
  {
    if bits == [] then []
    else
      var half := Pow2(|bits| - 1);
      if bits[0] then [Subtree(leaves[..half], depth + 1, width)] + Siblings(leaves[half..], bits[1..], depth + 1, width)
      else [Subtree(leaves[half..], depth + 1, width)] + Siblings(leaves[..half], bits[1..], depth + 1, width)
  }

  /** The number a bit string spells, most significant bit first. */
  function BitsValue(bits: seq<bool>): (v: nat)
    ensures v < Pow2(|bits|)
  {
    if bits == [] then 0 else (if bits[0] then Pow2(|bits| - 1) else 0) + BitsValue(bits[1..])
  }

  lemma {:induction false} ClimbStep(path: seq<Digest>, bits: seq<bool>, depth: nat, width: nat, leaf: Digest)
    requires 0 < |path| == |bits| && depth + |path| <= 255
    ensures Climb(path, bits, depth, width, leaf) ==
            if bits[0] then BranchHash(depth, width, path[0], Climb(path[1..], bits[1..], depth + 1, width, leaf))
            else BranchHash(depth, width, Climb(path[1..], bits[1..], depth + 1, width, leaf), path[0])
  {
    hide BranchHash;
  }

  /** The siblings of a leaf: the other half, then those within its own half. */
  lemma {:induction false} SiblingsStep(leaves: seq<Digest>, bits: seq<bool>, depth: nat, width: nat)
    requires bits != [] && |leaves| == Pow2(|bits|) && depth + |bits| <= 255
    ensures var half := Pow2(|bits| - 1);
            var (own, other) := if bits[0] then (leaves[half..], leaves[..half]) else (leaves[..half], leaves[half..]);
            && |own| == half
            && Siblings(leaves, bits, depth, width)[0] == Subtree(other, depth + 1, width)
            && Siblings(leaves, bits, depth, width)[1..] == Siblings(own, bits[1..], depth + 1, width)
            && leaves[BitsValue(bits)] == own[BitsValue(bits[1..])]
  {
    hide Subtree;
  }

  lemma {:induction false} ClimbSingle(leaves: seq<Digest>, depth: nat, width: nat)
    requires |leaves| == 1 && depth <= 255
    ensures Climb(Siblings(leaves, [], depth, width), [], depth, width, leaves[BitsValue([])]) == Subtree(leaves, depth, width)
  {
    hide Merklize;
  }

  /** Climbing with the right siblings reaches the root of the whole tree. */
  lemma {:induction false} ClimbReachesRoot(leaves: seq<Digest>, bits: seq<bool>, depth: nat, width: nat)
    requires |leaves| == Pow2(|bits|) && depth + |bits| <= 255
    ensures Climb(Siblings(leaves, bits, depth, width), bits, depth, width, leaves[BitsValue(bits)]) ==
            Subtree(leaves, depth, width)
    decreases |bits|
  {
    hide Subtree, Climb, Siblings, BitsValue, BranchHash;
    if bits == [] {
      ClimbSingle(leaves, depth, width);
    } else {
      var half := Pow2(|bits| - 1);
      SubtreeSplits(leaves, |bits|, depth, width);
      SiblingsStep(leaves, bits, depth, width);
      ClimbStep(Siblings(leaves, bits, depth, width), bits, depth, width, leaves[BitsValue(bits)]);
      ClimbReachesRoot(if bits[0] then leaves[half..] else leaves[..half], bits[1..], depth + 1, width);
    }
  }

  lemma {:induction false} SubtreeSplits(leaves: seq<Digest>, k: nat, depth: nat, width: nat)
    requires k > 0 && |leaves| == Pow2(k) && depth < 255
    ensures Subtree(leaves, depth, width) ==
            BranchHash(depth, width, Subtree(leaves[..Pow2(k - 1)], depth + 1, width),
                       Subtree(leaves[Pow2(k - 1)..], depth + 1, width))
  {
    hide Node;
    if k > 1 {
      assert Pow2(k) == 4 * Pow2(k - 2);
      assert |leaves| / 2 + |leaves| % 2 == Pow2(k - 1);
    }
  }

  /** At one position, the top commits to the leaf and to every sibling. */
  lemma {:induction false} ClimbInjective(p: seq<Digest>, q: seq<Digest>, bits: seq<bool>, depth: nat, width: nat,
                                          a: Digest, b: Digest)
    requires |p| == |q| == |bits| && depth + |p| <= 255 && width < U32
    requires Climb(p, bits, depth, width, a) == Climb(q, bits, depth, width, b)
    ensures a == b && p == q
  {
    hide Node;
    if p != [] {
      var x, y := Climb(p[1..], bits[1..], depth + 1, width, a), Climb(q[1..], bits[1..], depth + 1, width, b);
      if bits[0] {
        NodeInjective(2, depth, width, p[0], x, 2, depth, width, q[0], y);
      } else {
        NodeInjective(2, depth, width, x, p[0], 2, depth, width, y, q[0]);
      }
      ClimbInjective(p[1..], q[1..], bits[1..], depth + 1, width, a, b);
      assert p == [p[0]] + p[1..] && q == [q[0]] + q[1..];
    }
  }
}
