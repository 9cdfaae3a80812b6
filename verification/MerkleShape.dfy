/** The shape of the tree, written out: where it splits, what a node record holds, and
    how any leaf of any number of leaves reaches the top. */
module MerkleShape {
  import opened Bytes
  import opened Merkle
  import opened Symbols

  /** A node record, symbol by symbol. */
  ghost predicate IsRecord(r: seq<Sym>, branching: byte, depth: byte, width: nat, left: Digest, right: Digest) {
    && |r| == 36 && r[0] == B(branching) && r[1] == B(depth)
    && r[2] == B(width % 256) && r[3] == B(width / 256 % 256) && r[4] == B(width / 65536 % 256) && r[5] == B(width / 16777216 % 256)
    && (forall i :: 6 <= i < 34 ==> r[i] == B(0))
    && r[34] == D(left) && r[35] == D(right)
  }

  /** The hash of such a record, under the tag that leaves and nodes share. */
  ghost predicate IsNode(d: Digest, branching: byte, depth: byte, width: nat, left: Digest, right: Digest) {
    d.Hash? && d.tag == MerkleNode && IsRecord(d.preimage, branching, depth, width, left, right)
  }

  lemma {:induction false} FourBytes(w: nat)
    ensures LittleEndian(w, 4) == [w % 256, w / 256 % 256, w / 65536 % 256, w / 16777216 % 256]
  {
    var a := w / 256;
    var b := a / 256;
    assert b == w / 65536 && b / 256 == w / 16777216;
    assert LittleEndian(b / 256, 1) == [b / 256 % 256] + LittleEndian(b / 256 / 256, 0);
    assert LittleEndian(b, 2) == [b % 256] + LittleEndian(b / 256, 1);
    assert LittleEndian(a, 3) == [a % 256] + LittleEndian(b, 2);
    assert LittleEndian(w, 4) == [w % 256] + LittleEndian(a, 3);
  }

  lemma {:induction false} NodeIs(branching: byte, depth: byte, width: nat, left: Digest, right: Digest)
    ensures IsNode(Node(branching, depth, width, left, right), branching, depth, width, left, right)
  {
    FourBytes(width);
    var r := NodeRecord(branching, depth, width, left, right);
    assert r[2..6] == LE(width, 4);
    assert r[6..34] == Plain(Repeat(0, 28));
    forall i | 6 <= i < 34 ensures r[i] == B(0) { assert r[i] == r[6..34][i - 6]; }
    assert r[2] == LE(width, 4)[0] && r[3] == LE(width, 4)[1] && r[4] == LE(width, 4)[2] && r[5] == LE(width, 4)[3];
  }

  /** More than two leaves split in halves, the left one larger by at most one, and the
      halves are trees one level deeper. */
  lemma {:induction false} MerklizeSplits(a: seq<Digest>, b: seq<Digest>, depth: byte, width: nat)
    requires |b| <= |a| <= |b| + 1 && |a| + |b| > 2
    ensures IsNode(Merklize(a + b, depth, width), 2, depth, width,
                   Merklize(a, (depth + 1) % 256, width), Merklize(b, (depth + 1) % 256, width))
  {
    hide Node;
    var all := a + b;
    assert all[..|a|] == a && all[|a|..] == b;
    NodeIs(2, depth, width, Merklize(a, (depth + 1) % 256, width), Merklize(b, (depth + 1) % 256, width));
  }

  /** Up to two leaves are one node; a missing child is virtual, 32 bytes of 0xff. */
  lemma {:induction false} SmallTrees(a: Digest, b: Digest, depth: byte, width: nat)
    ensures VIRTUAL_LEAF == Raw(seq(32, _ => 0xff))
    ensures IsNode(Merklize([], depth, width), 0, depth, width, VIRTUAL_LEAF, VIRTUAL_LEAF)
    ensures IsNode(Merklize([a], depth, width), 1, depth, width, a, VIRTUAL_LEAF)
    ensures IsNode(Merklize([a, b], depth, width), 2, depth, width, a, b)
  {
    hide Node;
    assert Repeat(0xff, 32) == seq(32, _ => 0xff);
    NodeIs(0, depth, width, VIRTUAL_LEAF, VIRTUAL_LEAF);
    NodeIs(1, depth, width, a, VIRTUAL_LEAF);
    NodeIs(2, depth, width, a, b);
  }

  /** The roots of no leaf, one, two and three leaves, written out. */
  lemma {:induction false} SmallRoots(a: Digest, b: Digest, c: Digest) returns (left: Digest, right: Digest)
    ensures IsNode(MerkleRoot([]), 0, 0, 0, VIRTUAL_LEAF, VIRTUAL_LEAF)
    ensures MerkleRoot([a]) == a
    ensures IsNode(MerkleRoot([a, b]), 2, 0, 2, a, b)
    ensures IsNode(left, 2, 1, 3, a, b) && IsNode(right, 1, 1, 3, c, VIRTUAL_LEAF)
    ensures IsNode(MerkleRoot([a, b, c]), 2, 0, 3, left, right)
  {
    hide Node, Merklize;
    left, right := Merklize([a, b], 1, 3), Merklize([c], 1, 3);
    SmallTrees(a, b, 0, 0);
    SmallTrees(a, b, 0, 2);
    SmallTrees(a, b, 1, 3);
    SmallTrees(c, b, 1, 3);
    MerklizeSplits([a, b], [c], 0, 3);
    assert [a, b] + [c] == [a, b, c];
  }

  // ----- inclusion, for any number of leaves

  /** One step down the tree: which side is taken, how many children there are, and the other child. */
  datatype Turn = Turn(right: bool, branching: byte, other: Digest)

  /** From the top to a leaf. */
  function Way(leaves: seq<Digest>, i: nat, depth: byte, width: nat): (way: seq<Turn>)
    requires i < |leaves|
    ensures |way| > 0
  {
    if |leaves| == 1 then [Turn(false, 1, VIRTUAL_LEAF)]
    else if |leaves| == 2 then [Turn(i == 1, 2, leaves[1 - i])]
    else
      var half, next := (|leaves| + 1) / 2, (depth + 1) % 256;
      if i < half then [Turn(false, 2, Merklize(leaves[half..], next, width))] + Way(leaves[..half], i, next, width)
      else [Turn(true, 2, Merklize(leaves[..half], next, width))] + Way(leaves[half..], i - half, next, width)
  }

  /** The node over what lies below a turn and the other child. */
  ghost predicate Turns(top: Digest, t: Turn, depth: byte, width: nat, below: Digest) {
    if t.right then IsNode(top, t.branching, depth, width, t.other, below) else IsNode(top, t.branching, depth, width, below, t.other)
  }

  /** Turn by turn, the way goes down from `top` to `leaf`. */
  ghost predicate Leads(top: Digest, way: seq<Turn>, depth: byte, width: nat, leaf: Digest)
    decreases |way|
  {
    if way == [] then top == leaf
    else exists below :: Turns(top, way[0], depth, width, below) && Leads(below, way[1..], (depth + 1) % 256, width, leaf)
  }

  /** For any number of leaves and any of them, the way down from the root leads to it. */
  lemma {:induction false} EveryLeafIsReached(leaves: seq<Digest>, i: nat, depth: byte, width: nat)
    requires i < |leaves|
    ensures Leads(Merklize(leaves, depth, width), Way(leaves, i, depth, width), depth, width, leaves[i])
    decreases |leaves|
  {
    hide Node, Merklize, IsNode;
    var way, next := Way(leaves, i, depth, width), (depth + 1) % 256;
    var below, rest := leaves[i], way[1..];
    if |leaves| <= 2 {
      SmallTrees(leaves[0], leaves[|leaves| - 1], depth, width);
      assert leaves == if |leaves| == 1 then [leaves[0]] else [leaves[0], leaves[1]];
      assert rest == [];
    } else {
      var half := (|leaves| + 1) / 2;
      assert leaves == leaves[..half] + leaves[half..];
      MerklizeSplits(leaves[..half], leaves[half..], depth, width);
      var own, k := if i < half then leaves[..half] else leaves[half..], if i < half then i else i - half;
      EveryLeafIsReached(own, k, next, width);
      below := Merklize(own, next, width);
      assert rest == Way(own, k, next, width) && own[k] == leaves[i];
    }
    assert Turns(Merklize(leaves, depth, width), way[0], depth, width, below) && Leads(below, rest, next, width, leaves[i]);
  }

  /** And the turns, with the root, fix the leaf: a way down shows inclusion. */
  lemma {:induction false} WayFixesLeaf(top: Digest, way: seq<Turn>, depth: byte, width: nat, a: Digest, b: Digest)
    requires Leads(top, way, depth, width, a) && Leads(top, way, depth, width, b)
    ensures a == b
    decreases |way|
  {
    hide Turns;
    if way != [] {
      var next := (depth + 1) % 256;
      var x :| Turns(top, way[0], depth, width, x) && Leads(x, way[1..], next, width, a);
      var y :| Turns(top, way[0], depth, width, y) && Leads(y, way[1..], next, width, b);
      SameChildren(top, way[0], depth, width, x, y);
      WayFixesLeaf(x, way[1..], next, width, a, b);
    }
  }

  lemma {:induction false} SameChildren(top: Digest, t: Turn, depth: byte, width: nat, x: Digest, y: Digest)
    requires Turns(top, t, depth, width, x) && Turns(top, t, depth, width, y)
    ensures x == y
  {
  }
}
