/** Symbolic hashing. A digest is a term: a raw 32-byte string, or a tag together
    with the preimage that was hashed. Two digests are equal exactly when they
    are the same term, which states that no two preimages collide under one tag
    and that tags separate domains. In a preimage a digest is one symbol that
    stands for its 32 bytes, and any data may quote one. */
module Symbols {
  import opened Bytes

  datatype Tag =
    | StrictValue    // urn:ubideco:strict-types:value-hash#2024-02-10
    | MerkleNode     // urn:ubideco:merkle:node#2024-01-31, shared by leaves and branches
    | Operation      // urn:lnp-bp:rgb:operation#2024-02-03
    | SecretSeal     // urn:lnp-bp:seals:secret#2024-02-03
    | Bundle         // urn:lnp-bp:rgb:bundle#2024-02-03
    | MpcCommitment  // urn:ubideco:mpc:commitment#2024-01-31
    | TapLeaf
    | TapBranch
    | TapTweak       // the output key, bound to internal key and root

  datatype Digest = Raw(bytes: seq<byte>) | Hash(tag: Tag, preimage: seq<Sym>)

  datatype Sym = B(b: byte) | D(d: Digest)

  const ZERO: Digest := Raw(Repeat(0, 32))

  /** Plain bytes as symbols. */
  function Plain(bytes: seq<byte>): (r: seq<Sym>)
    ensures |r| == |bytes|
    ensures forall i :: 0 <= i < |bytes| ==> r[i] == B(bytes[i])
  {
    seq(|bytes|, i requires 0 <= i < |bytes| => B(bytes[i]))
  }

  lemma {:induction false} PlainInjective(a: seq<byte>, b: seq<byte>)
    requires Plain(a) == Plain(b)
    ensures a == b
  {
    forall i | 0 <= i < |a| ensures a[i] == b[i] {
      assert Plain(a)[i] == Plain(b)[i];
    }
  }

  /** The number of bytes a symbolic string stands for. */
  function ByteLength(s: seq<Sym>): nat {
    if s == [] then 0 else (if s[0].B? then 1 else 32) + ByteLength(s[1..])
  }

  lemma {:induction false} ByteLengthConcat(a: seq<Sym>, b: seq<Sym>)
    ensures ByteLength(a + b) == ByteLength(a) + ByteLength(b)
  {
    if a == [] {
      assert a + b == b;
    } else {
      ByteLengthConcat(a[1..], b);
      assert (a + b)[1..] == a[1..] + b;
    }
  }

  /** Symbols stand for at least one byte, and for one each exactly when none is a digest. */
  lemma {:induction false} ByteLengthLeast(s: seq<Sym>)
    ensures ByteLength(s) >= |s|
    ensures ByteLength(s) == |s| <==> forall i :: 0 <= i < |s| ==> s[i].B?
  {
    if s != [] {
      ByteLengthLeast(s[1..]);
      assert s == [s[0]] + s[1..];
      assert forall i :: 0 <= i < |s[1..]| ==> s[1..][i] == s[i + 1];
      assert forall i :: 0 < i < |s| ==> s[i] == s[1..][i - 1];
    }
  }

  lemma {:induction false} NotLonger(a: seq<Sym>, s: seq<Sym>, b: seq<Sym>, t: seq<Sym>)
    requires a + s == b + t && ByteLength(a) == ByteLength(b)
    ensures |b| <= |a|
  {
    if |a| < |b| {
      var rest := b[|a|..];
      assert b == (b + t)[..|b|] == (a + s)[..|b|];
      assert b == a + rest;
      ByteLengthConcat(a, rest);
      ByteLengthLeast(rest);
    }
  }

  /** Two concatenations that agree, with first parts of as many bytes, agree part by part. */
  lemma {:induction false} ByteSplit(a: seq<Sym>, s: seq<Sym>, b: seq<Sym>, t: seq<Sym>)
    requires a + s == b + t && ByteLength(a) == ByteLength(b)
    ensures a == b && s == t
  {
    NotLonger(a, s, b, t);
    NotLonger(b, t, a, s);
    assert a == (a + s)[..|a|] && b == (b + t)[..|b|];
    assert s == (a + s)[|a|..] && t == (b + t)[|b|..];
  }

  function LE(v: nat, width: nat): (r: seq<Sym>)
    ensures |r| == width
  {
    Plain(LittleEndian(v, width))
  }

  lemma {:induction false} LEInjective(v: nat, w: nat, width: nat)
    requires v < Pow256(width) && w < Pow256(width)
    requires LE(v, width) == LE(w, width)
    ensures v == w
  {
    PlainInjective(LittleEndian(v, width), LittleEndian(w, width));
    LittleEndianInjective(v, w, width);
  }

  /** Two concatenations that agree, with first parts of one length, agree part by part. */
  lemma {:induction false} SplitEqual<T>(a: seq<T>, b: seq<T>, c: seq<T>, d: seq<T>)
    requires a + b == c + d && |a| == |c|
    ensures a == c && b == d
  {
    assert a == (a + b)[..|a|] && c == (c + d)[..|c|];
    assert b == (a + b)[|a|..] && d == (c + d)[|c|..];
  }

  /** The facts about digests that are computed outside the symbolic terms. */
  datatype Crypto = Crypto(
    number: Digest -> nat,            // the 32 bytes read as a little-endian integer
    less: (Digest, Digest) -> bool,   // bytewise comparison
    validKey: Digest -> bool,         // an x coordinate on the curve
    tweakable: (Digest, Digest) -> bool)  // tweaking the key by the root gives a point

  /** Bytewise comparison is a strict total order. */
  ghost predicate TotalOrder(less: (Digest, Digest) -> bool) {
    && (forall a, b :: !(less(a, b) && less(b, a)))
    && (forall a, b :: a == b || less(a, b) || less(b, a))
    && (forall a, b, c :: less(a, b) && less(b, c) ==> less(a, c))
  }
}
