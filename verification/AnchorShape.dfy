/** Anchors written out: what each record of a multi-protocol or taproot commitment
    holds, symbol by symbol, and when each proof is accepted. */
module AnchorShape {
  import opened Anchor
  import opened Bytes
  import opened MerkleShape
  import opened Symbols
  import opened Wrappers
  import Merkle
  import Mpc
  import Tapret

  // ----- multi-protocol commitments

  /** The number of a protocol is `quotient` rows and its position in one. */
  lemma {:induction false} PositionIs(c: Crypto, protocol: Digest, width: nat) returns (quotient: nat)
    requires width > 0
    ensures c.number(protocol) == quotient * width + Mpc.ProtocolPosition(c, protocol, width)
    ensures Mpc.ProtocolPosition(c, protocol, width) < width
  {
    quotient := c.number(protocol) / width;
  }

  /** A cofactor above the width wraps in 32 bits. */
  lemma {:induction false} FactoredIs(depth: nat, cofactor: nat)
    requires depth <= 31 && cofactor < 65536
    ensures Mpc.FactoredWidth(depth, cofactor) ==
            if cofactor <= Merkle.Pow2(depth) then Merkle.Pow2(depth) - cofactor else Merkle.Pow2(depth) + 0x1_0000_0000 - cofactor
  {
    Mpc.WidthFits(depth);
  }

  /** The records of a message and of a whole commitment. */
  lemma {:induction false} MpcRecords(protocol: Digest, message: Digest, depth: byte, cofactor: nat, root: Digest)
    ensures Merkle.LeafHash(Mpc.LeafRecord(protocol, message)) == Hash(MerkleNode, [B(16), D(protocol), D(message)])
    ensures Mpc.Commitment(depth, cofactor, root) ==
            Hash(MpcCommitment, [B(depth), B(cofactor % 256), B(cofactor / 256 % 256), D(root)])
  {
    assert LittleEndian(cofactor / 256, 1) == [cofactor / 256 % 256] + LittleEndian(cofactor / 256 / 256, 0);
    assert LE(cofactor, 2) == [B(cofactor % 256), B(cofactor / 256 % 256)];
    assert [B(depth)] + LE(cofactor, 2) + [D(root)] == [B(depth), B(cofactor % 256), B(cofactor / 256 % 256), D(root)];
  }

  /** The proof sits in its row, where the protocol's number says. */
  ghost predicate Sits(c: Crypto, proof: Mpc.Proof, protocol: Digest) {
    && |proof.path| <= 31 && proof.position < Merkle.Pow2(|proof.path|)
    && var width := if proof.cofactor <= Merkle.Pow2(|proof.path|) then Merkle.Pow2(|proof.path|) - proof.cofactor
                    else Merkle.Pow2(|proof.path|) + 0x1_0000_0000 - proof.cofactor;
       width > 0 && c.number(protocol) % width == proof.position
  }

  /** A proof convolves exactly when it sits where the protocol's number says, whatever the message. */
  lemma {:induction false} ConvolvesExactly(c: Crypto, proof: Mpc.Proof, protocol: Digest, message: Digest)
    requires proof.cofactor < 65536
    ensures Mpc.Convolution(c, proof, protocol, message).Ok? <==> Sits(c, proof, protocol)
  {
    if |proof.path| <= 31 {
      FactoredIs(|proof.path|, proof.cofactor);
    }
  }

  // ----- taproot commitments

  /** The commitment script: 29 reserved opcodes, OP_RETURN, a push of 33 bytes,
      and the 33 bytes, the commitment before the nonce. */
  lemma {:induction false} ScriptIs(commitment: Digest, nonce: byte)
    ensures var s := Tapret.Script(commitment, nonce);
            && |s| == 33
            && (forall i :: 0 <= i < 29 ==> s[i] == B(0x50))
            && s[29] == B(0x6a) && s[30] == B(0x21) && s[31] == D(commitment) && s[32] == B(nonce)
  {
  }

  /** The widths of lengths: one, three, five or nine bytes. */
  lemma {:induction false} CompactSizeIs(n: nat)
    ensures n < 253 ==> Tapret.CompactSize(n) == [n]
    ensures 253 <= n < 65536 ==> Tapret.CompactSize(n) == [0xfd, n % 256, n / 256]
    ensures 65536 <= n < 0x1_0000_0000 ==>
              Tapret.CompactSize(n) == [0xfe, n % 256, n / 256 % 256, n / 65536 % 256, n / 16777216]
    ensures 0x1_0000_0000 <= n < U64 ==> |Tapret.CompactSize(n)| == 9 && Tapret.CompactSize(n)[0] == 0xff
                                         && FromLittleEndian(Tapret.CompactSize(n)[1..]) == n
  {
    FourBytes(n);
    assert LittleEndian(n, 2) == [n % 256, n / 256 % 256] by {
      assert LittleEndian(n / 256, 1) == [n / 256 % 256] + LittleEndian(n / 256 / 256, 0);
    }
    if 0x1_0000_0000 <= n < U64 {
      Pow256Widths();
      ReadWritten(n, 8);
      assert Tapret.CompactSize(n)[1..] == LittleEndian(n, 8);
    }
  }

  /** A leaf hashes its version, the length of its script and the script; the commitment leaf,
      of version 0xc0, those of its 64 bytes. */
  lemma {:induction false} LeafIs(version: byte, script: seq<Sym>, commitment: Digest, nonce: byte)
    ensures Tapret.LeafHash(version, script) == Hash(TapLeaf, [B(version)] + Plain(Tapret.CompactSize(ByteLength(script))) + script)
    ensures Tapret.LeafHash(0xc0, Tapret.Script(commitment, nonce)) == Hash(TapLeaf, [B(0xc0), B(64)] + Tapret.Script(commitment, nonce))
  {
    Tapret.ScriptFacts(commitment, nonce);
    assert Plain(Tapret.CompactSize(64)) == [B(64)];
    assert [B(0xc0)] + [B(64)] == [B(0xc0), B(64)];
  }

  /** The smaller child first. */
  ghost predicate IsBranch(c: Crypto, d: Digest, a: Digest, b: Digest) {
    (d == Hash(TapBranch, [D(a), D(b)]) && !c.less(b, a)) || (d == Hash(TapBranch, [D(b), D(a)]) && c.less(b, a))
  }

  /** The hash of the sibling that a proof names: as given, of the leaf, or of the branch. */
  ghost predicate Sibling(c: Crypto, p: Tapret.Partner, hash: Digest) {
    match p
    case LeftNode(h) => hash == h
    case RightLeaf(version, script) => hash == Hash(TapLeaf, [B(version)] + Plain(Tapret.CompactSize(ByteLength(script))) + script)
    case RightBranch(left, right) => IsBranch(c, hash, left, right)
    case UnknownKind(_) => false
  }

  /** A commitment could hide behind the sibling: its script, or the first child of its
      branch, starts as commitment scripts do. */
  ghost predicate Suspicious(p: Tapret.Partner) {
    match p
    case RightLeaf(_, script) =>
      && |script| >= 31 && (forall i :: 0 <= i < 29 ==> script[i] == B(0x50)) && script[29] == B(0x6a) && script[30] == B(0x21)
    case RightBranch(left, _) =>
      && left.Raw? && |left.bytes| >= 31
      && (forall i :: 0 <= i < 29 ==> left.bytes[i] == 0x50) && left.bytes[29] == 0x6a && left.bytes[30] == 0x21
    case _ => false
  }

  /** The sibling is on the side that its kind claims, and a branch names its children in order. */
  ghost predicate InPlace(c: Crypto, p: Tapret.Partner, leaf: Digest, hash: Digest) {
    match p
    case LeftNode(_) => !c.less(leaf, hash)
    case RightLeaf(_, _) => !c.less(hash, leaf)
    case RightBranch(left, right) => !c.less(hash, leaf) && !c.less(right, left)
    case UnknownKind(_) => false
  }

  lemma {:induction false} PrefixIs()
    ensures |Tapret.PREFIX| == 31 && Tapret.PREFIX[29] == 0x6a && Tapret.PREFIX[30] == 0x21
    ensures forall i :: 0 <= i < 29 ==> Tapret.PREFIX[i] == 0x50
  {
  }

  lemma {:induction false} SuspiciousExactly(p: Tapret.Partner)
    ensures p.RightLeaf? ==> (Suspicious(p) <==> Tapret.ScriptHasPrefix(p.script))
    ensures p.RightBranch? ==> (Suspicious(p) <==> Tapret.DigestHasPrefix(p.left))
    ensures p.LeftNode? || p.UnknownKind? ==> !Suspicious(p)
  {
    PrefixIs();
    hide Repeat;
    if p.RightLeaf? && |p.script| >= 31 {
      var s, q := p.script, Plain(Tapret.PREFIX);
      if Suspicious(p) {
        assert s[..31] == q;
      }
      if s[..31] == q {
        assert forall i :: 0 <= i < 31 ==> s[i] == s[..31][i];
      }
    }
    if p.RightBranch? && p.left.Raw? && |p.left.bytes| >= 31 {
      var s := p.left.bytes;
      if Suspicious(p) {
        assert s[..31] == Tapret.PREFIX;
      }
      if s[..31] == Tapret.PREFIX {
        assert forall i :: 0 <= i < 31 ==> s[i] == s[..31][i];
      }
    }
  }

  /** A sibling is accepted exactly when it is in its place and no commitment could hide behind it. */
  lemma {:induction false} SiblingExactly(c: Crypto, p: Tapret.Partner, leaf: Digest)
    ensures forall hash :: Tapret.ValidatedHash(c, p, leaf) == Ok(hash) <==> Sibling(c, p, hash) && InPlace(c, p, leaf, hash) && !Suspicious(p)
  {
    hide Suspicious, Tapret.ScriptHasPrefix, Tapret.DigestHasPrefix;
    SuspiciousExactly(p);
  }

  /** The root over the commitment leaf and an accepted sibling, if one is named. */
  ghost predicate IsRoot(c: Crypto, commitment: Digest, nonce: byte, partner: Option<Tapret.Partner>, root: Digest) {
    var leaf := Hash(TapLeaf, [B(0xc0), B(64)] + Tapret.Script(commitment, nonce));
    match partner
    case None => root == leaf
    case Some(p) => exists hash :: Sibling(c, p, hash) && InPlace(c, p, leaf, hash) && !Suspicious(p) && IsBranch(c, root, leaf, hash)
  }

  lemma {:induction false} RootExactly(c: Crypto, commitment: Digest, nonce: byte, partner: Option<Tapret.Partner>)
    ensures forall root :: Tapret.MerkleRoot(c, commitment, nonce, partner) == Ok(root) <==> IsRoot(c, commitment, nonce, partner, root)
  {
    hide Tapret.ValidatedHash, Tapret.LeafHash, Tapret.Script, Sibling, InPlace, Suspicious;
    LeafIs(0, [], commitment, nonce);
    if partner.Some? {
      var leaf := Tapret.LeafHash(0xc0, Tapret.Script(commitment, nonce));
      SiblingExactly(c, partner.value, leaf);
      if Tapret.ValidatedHash(c, partner.value, leaf).Ok? {
        var hash := Tapret.ValidatedHash(c, partner.value, leaf).value;
        assert Sibling(c, partner.value, hash) && InPlace(c, partner.value, leaf, hash) && !Suspicious(partner.value);
      }
    }
  }

  /** The output key: the internal key, a point, tweaked to another point by the root. */
  lemma {:induction false} KeyExactly(c: Crypto, internal: Digest, commitment: Digest, nonce: byte, partner: Option<Tapret.Partner>, key: Digest)
    ensures Tapret.OutputKey(c, internal, commitment, nonce, partner) == Ok(key) <==>
            exists root :: IsRoot(c, commitment, nonce, partner, root) && c.validKey(internal) && c.tweakable(internal, root)
                           && key == Hash(TapTweak, [D(internal), D(root)])
  {
    hide Tapret.MerkleRoot, IsRoot;
    RootExactly(c, commitment, nonce, partner);
    if Tapret.OutputKey(c, internal, commitment, nonce, partner) == Ok(key) {
      var root := Tapret.MerkleRoot(c, commitment, nonce, partner).value;
      assert IsRoot(c, commitment, nonce, partner, root);
    }
  }

  // ----- carriers

  /** Of scripts in plain bytes those that start with OP_RETURN can carry a commitment, and
      those of 34 bytes that start with OP_1 and a push of 32. */
  lemma {:induction false} CarriersExactly(script: seq<Sym>)
    requires forall i :: 0 <= i < |script| ==> script[i].B?
    ensures IsCarrier(script) <==>
            (|script| >= 1 && script[0] == B(0x6a)) || (|script| == 34 && script[0] == B(0x51) && script[1] == B(0x20))
  {
    ByteLengthLeast(script);
  }

  /** And of those that name a digest the two scripts that commitments make. */
  lemma {:induction false} MadeCarriers(d: Digest)
    ensures OpretScript(d) == [B(0x6a), B(0x20), D(d)] && TapretPkScript(d) == [B(0x51), B(0x20), D(d)]
    ensures IsCarrier(OpretScript(d)) && !IsTaproot(OpretScript(d)) && IsTaproot(TapretPkScript(d)) && IsCarrier(TapretPkScript(d))
  {
    KeyScript(d);
  }
}
