/** The first-output taproot commitment: a tapscript leaf carrying commitment and
    nonce, with at most one sibling, under the tree of BIP 341. */
module Tapret {
  import opened Bytes
  import opened Symbols
  import opened Wrappers

  /** 29 reserved opcodes, OP_RETURN and a push of 33 bytes. */
  const PREFIX: seq<byte> := Repeat(0x50, 29) + [0x6a, 0x21]

  datatype Partner =
    | LeftNode(hash: Digest)
    | RightLeaf(version: byte, script: seq<Sym>)
    | RightBranch(left: Digest, right: Digest)
    | UnknownKind(encoded: seq<Sym>)

  datatype Error = InvalidTapret

  function Script(commitment: Digest, nonce: byte): seq<Sym> {
    Plain(PREFIX) + [D(commitment), B(nonce)]
  }

  /** The variable-width length of section "CompactSize" of the Bitcoin wire format. */
  function CompactSize(value: nat): (r: seq<byte>)
    ensures |r| > 0
  {
    if value < 0xfd then [value]
    else if value < U16 then [0xfd] + LittleEndian(value, 2)
    else if value < U32 then [0xfe] + LittleEndian(value, 4)
    else [0xff] + LittleEndian(value, 8)
  }

  function LeafRecord(version: byte, script: seq<Sym>): seq<Sym> {
    [B(version)] + Plain(CompactSize(ByteLength(script))) + script
  }

  function LeafHash(version: byte, script: seq<Sym>): Digest {
    Hash(TapLeaf, LeafRecord(version, script))
  }

  /** Branches hash their children in bytewise order. */
  function BranchHash(c: Crypto, first: Digest, second: Digest): Digest {
    if c.less(second, first) then Hash(TapBranch, [D(second), D(first)]) else Hash(TapBranch, [D(first), D(second)])
  }

  predicate ScriptHasPrefix(script: seq<Sym>) {
    |script| >= |PREFIX| && script[..|PREFIX|] == Plain(PREFIX)
  }

  predicate DigestHasPrefix(d: Digest) {
    d.Raw? && |d.bytes| >= |PREFIX| && d.bytes[..|PREFIX|] == PREFIX
  }

  /** The sibling's hash, accepted only on the side its kind claims. */
  function ValidatedHash(c: Crypto, partner: Partner, commitmentLeaf: Digest): Result<Digest, Error> {
    match partner
    case LeftNode(hash) =>
      if c.less(commitmentLeaf, hash) then Err(InvalidTapret) else Ok(hash)
    case RightLeaf(version, script) =>
      if ScriptHasPrefix(script) then Err(InvalidTapret)
      else
        var hash := LeafHash(version, script);
        if c.less(hash, commitmentLeaf) then Err(InvalidTapret) else Ok(hash)
    case RightBranch(left, right) =>
      if c.less(right, left) || DigestHasPrefix(left) then Err(InvalidTapret)
      else
        var hash := BranchHash(c, left, right);
        if c.less(hash, commitmentLeaf) then Err(InvalidTapret) else Ok(hash)
    case UnknownKind(_) => Err(InvalidTapret)
  }

  function MerkleRoot(c: Crypto, commitment: Digest, nonce: byte, partner: Option<Partner>): Result<Digest, Error> {
    var leaf := LeafHash(0xc0, Script(commitment, nonce));
    match partner
    case None => Ok(leaf)
    case Some(p) =>
      match ValidatedHash(c, p, leaf)
      case Err(e) => Err(e)
      case Ok(hash) => Ok(BranchHash(c, leaf, hash))
  }

  /** The output key binds the internal key and the root. */
  function OutputKey(c: Crypto, internal: Digest, commitment: Digest, nonce: byte, partner: Option<Partner>): Result<Digest, Error> {
    if !c.validKey(internal) then Err(InvalidTapret)
    else
      match MerkleRoot(c, commitment, nonce, partner)
      case Err(e) => Err(e)
      case Ok(root) => if c.tweakable(internal, root) then Ok(Hash(TapTweak, [D(internal), D(root)])) else Err(InvalidTapret)
  }

  /** Lengths are read back without looking at what follows. */
  lemma {:induction false} CompactSizePrefixFree(v: nat, w: nat, s: seq<Sym>, t: seq<Sym>)
    requires v < U64 && w < U64
    requires Plain(CompactSize(v)) + s == Plain(CompactSize(w)) + t
    ensures v == w && s == t
  {
    var x, y := Plain(CompactSize(v)), Plain(CompactSize(w));
    assert x[0] == (x + s)[0] == (y + t)[0] == y[0];
    assert x[0] == B(CompactSize(v)[0]) && y[0] == B(CompactSize(w)[0]);
    assert |x| == |y|;
    SplitEqual(x, s, y, t);
    PlainInjective(CompactSize(v), CompactSize(w));
    Pow256Widths();
    if v >= 0xfd {
      assert CompactSize(v)[1..] == CompactSize(w)[1..];
      LittleEndianInjective(v, w, |x| - 1);
    }
  }

  lemma {:induction false} LeafInjective(v: byte, s: seq<Sym>, w: byte, t: seq<Sym>)
    requires ByteLength(s) < U64 && ByteLength(t) < U64
    requires LeafHash(v, s) == LeafHash(w, t)
    ensures v == w && s == t
  {
    var x, y := LeafRecord(v, s), LeafRecord(w, t);
    assert x[0] == B(v) && y[0] == B(w);
    assert x[1..] == Plain(CompactSize(ByteLength(s))) + s && y[1..] == Plain(CompactSize(ByteLength(t))) + t;
    CompactSizePrefixFree(ByteLength(s), ByteLength(t), s, t);
  }

  lemma {:induction false} ByteLengthPlain(bytes: seq<byte>, tail: seq<Sym>)
    ensures ByteLength(Plain(bytes) + tail) == |bytes| + ByteLength(tail)
  {
    if bytes == [] {
      assert Plain(bytes) + tail == tail;
    } else {
      ByteLengthPlain(bytes[1..], tail);
      assert (Plain(bytes) + tail)[1..] == Plain(bytes[1..]) + tail;
    }
  }

  lemma {:induction false} ScriptFacts(commitment: Digest, nonce: byte)
    ensures ByteLength(Script(commitment, nonce)) == 64
    ensures ScriptHasPrefix(Script(commitment, nonce))
  {
    ByteLengthPlain(PREFIX, [D(commitment), B(nonce)]);
    var tail := [D(commitment), B(nonce)];
    assert ByteLength(tail) == 33 by {
      assert tail[1..] == [B(nonce)] && [B(nonce)][1..] == [];
      assert ByteLength([B(nonce)]) == 1 + ByteLength([]);
    }
    assert |PREFIX| == 31;
  }

  lemma {:induction false} CommitmentLeafInjective(a: Digest, m: byte, b: Digest, n: byte)
    requires LeafHash(0xc0, Script(a, m)) == LeafHash(0xc0, Script(b, n))
    ensures a == b && m == n
  {
    ScriptFacts(a, m);
    ScriptFacts(b, n);
    LeafInjective(0xc0, Script(a, m), 0xc0, Script(b, n));
    assert Script(a, m)[31] == D(a) && Script(b, n)[31] == D(b);
    assert Script(a, m)[32] == B(m) && Script(b, n)[32] == B(n);
  }

  /** A commitment leaf never passes as a right partner: as a leaf it has the
      tapret prefix, and it is no branch. */
  lemma {:induction false} CommitmentIsNoRightPartner(c: Crypto, partner: Partner, other: Digest, commitment: Digest, nonce: byte)
    requires !partner.LeftNode?
    requires partner.RightLeaf? ==> ByteLength(partner.script) < U64
    requires ValidatedHash(c, partner, other).Ok?
    ensures ValidatedHash(c, partner, other).value != LeafHash(0xc0, Script(commitment, nonce))
  {
    ScriptFacts(commitment, nonce);
    if partner.RightLeaf? && LeafHash(partner.version, partner.script) == LeafHash(0xc0, Script(commitment, nonce)) {
      LeafInjective(partner.version, partner.script, 0xc0, Script(commitment, nonce));
    }
  }

  predicate Bounded(partner: Option<Partner>) {
    partner.Some? && partner.value.RightLeaf? ==> ByteLength(partner.value.script) < U64
  }

  /** A branch over a commitment leaf, with the side the partner claims. */
  lemma {:induction false} RootShape(c: Crypto, commitment: Digest, nonce: byte, partner: Option<Partner>)
    requires TotalOrder(c.less)
    requires MerkleRoot(c, commitment, nonce, partner).Ok? && partner.Some?
    ensures ValidatedHash(c, partner.value, LeafHash(0xc0, Script(commitment, nonce))).Ok?
    ensures var leaf := LeafHash(0xc0, Script(commitment, nonce));
            var hash := ValidatedHash(c, partner.value, leaf).value;
            MerkleRoot(c, commitment, nonce, partner).value ==
            if partner.value.LeftNode? then Hash(TapBranch, [D(hash), D(leaf)]) else Hash(TapBranch, [D(leaf), D(hash)])
  {
  }

  /** A root opens to one commitment and nonce only, whatever partners are claimed. */
  lemma {:induction false} RootOpensOnce(c: Crypto, a: Digest, m: byte, p: Option<Partner>, b: Digest, n: byte, q: Option<Partner>)
    requires TotalOrder(c.less) && Bounded(p) && Bounded(q)
    requires MerkleRoot(c, a, m, p).Ok? && MerkleRoot(c, a, m, p) == MerkleRoot(c, b, n, q)
    ensures a == b && m == n
  {
    var x, y := LeafHash(0xc0, Script(a, m)), LeafHash(0xc0, Script(b, n));
    if p.Some? { RootShape(c, a, m, p); }
    if q.Some? { RootShape(c, b, n, q); }
    if p.Some? && q.Some? {
      var h, k := ValidatedHash(c, p.value, x).value, ValidatedHash(c, q.value, y).value;
      if p.value.LeftNode? && !q.value.LeftNode? {
        assert [D(h), D(x)][1] == [D(y), D(k)][1];
        CommitmentIsNoRightPartner(c, q.value, y, a, m);
      } else if !p.value.LeftNode? && q.value.LeftNode? {
        assert [D(x), D(h)][1] == [D(k), D(y)][1];
        CommitmentIsNoRightPartner(c, p.value, x, b, n);
      } else {
        assert (if p.value.LeftNode? then [D(h), D(x)][1] else [D(x), D(h)][0]) ==
               (if q.value.LeftNode? then [D(k), D(y)][1] else [D(y), D(k)][0]);
      }
    }
    CommitmentLeafInjective(a, m, b, n);
  }

  /** An output key is the key of one commitment only. */
  lemma {:induction false} KeyBindsCommitment(c: Crypto, i: Digest, a: Digest, m: byte, p: Option<Partner>,
                           j: Digest, b: Digest, n: byte, q: Option<Partner>)
    requires TotalOrder(c.less) && Bounded(p) && Bounded(q)
    requires OutputKey(c, i, a, m, p).Ok? && OutputKey(c, i, a, m, p) == OutputKey(c, j, b, n, q)
    ensures i == j && a == b && m == n
  {
    var r, s := MerkleRoot(c, a, m, p).value, MerkleRoot(c, b, n, q).value;
    assert [D(i), D(r)][0] == [D(j), D(s)][0] && [D(i), D(r)][1] == [D(j), D(s)][1];
    RootOpensOnce(c, a, m, p, b, n, q);
  }
}
