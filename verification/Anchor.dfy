/** The deterministic bitcoin commitment: which output of a witness transaction
    carries the commitment, and what it may commit to. */
module Anchor {
  import opened Bytes
  import opened Symbols
  import opened Wrappers
  import Mpc
  import Tapret

  datatype Outpoint = Outpoint(txid: Digest, vout: nat)

  datatype TxOut = TxOut(value: int, script: seq<Sym>)

  /** What validation reads of a bitcoin transaction. */
  datatype Tx = Tx(txid: Digest, spends: seq<Outpoint>, outputs: seq<TxOut>)

  datatype DbcProof =
    | Opret
    | TapretProof(internal: Digest, nonce: byte, partner: Option<Tapret.Partner>)
    | UnknownMethod(encoded: seq<Sym>)

  datatype Error = BundleAnchor

  function OpretScript(commitment: Digest): seq<Sym> {
    [B(0x6a), B(0x20), D(commitment)]
  }

  function TapretPkScript(key: Digest): seq<Sym> {
    [B(0x51), B(0x20), D(key)]
  }

  /** An OP_RETURN output or a pay-to-taproot output. */
  predicate IsCarrier(script: seq<Sym>) {
    || (script != [] && script[0] == B(0x6a))
    || IsTaproot(script)
  }

  predicate IsTaproot(script: seq<Sym>) {
    ByteLength(script) == 34 && |script| >= 2 && script[0] == B(0x51) && script[1] == B(0x20)
  }

  predicate TxSpends(tx: Tx, outpoint: Outpoint) {
    outpoint in tx.spends
  }

  method FirstCarrier(tx: Tx) returns (carrier: Option<TxOut>)
    ensures carrier == Carrier(tx.outputs)
  {
    for i := 0 to |tx.outputs|
      invariant Carrier(tx.outputs) == Carrier(tx.outputs[i..])
    {
      if IsCarrier(tx.outputs[i].script) {
        return Some(tx.outputs[i]);
      }
      assert tx.outputs[i..][1..] == tx.outputs[i + 1..];
    }
    return None;
  }

  /** The first output that can carry a commitment. */
  function Carrier(outputs: seq<TxOut>): Option<TxOut> {
    if outputs == [] then None
    else if IsCarrier(outputs[0].script) then Some(outputs[0])
    else Carrier(outputs[1..])
  }

  /** The carrier commits to `commitment` under the method the proof names. */
  function VerifyDBC(c: Crypto, tx: Tx, proof: DbcProof, commitment: Digest): Result<(), Error> {
    match Carrier(tx.outputs)
    case None => Err(BundleAnchor)
    case Some(carrier) =>
      match proof
      case Opret => if carrier.script == OpretScript(commitment) then Ok(()) else Err(BundleAnchor)
      case TapretProof(internal, nonce, partner) =>
        if !IsTaproot(carrier.script) then Err(BundleAnchor)
        else
          (match Tapret.OutputKey(c, internal, commitment, nonce, partner)
           case Err(_) => Err(BundleAnchor)
           case Ok(key) => if carrier.script == TapretPkScript(key) then Ok(()) else Err(BundleAnchor))
      case UnknownMethod(_) => Err(BundleAnchor)
  }

  /** Output `i` is the carrier: no output before it could be one. */
  ghost predicate CarrierAt(outputs: seq<TxOut>, i: int) {
    && 0 <= i < |outputs| && IsCarrier(outputs[i].script)
    && forall j :: 0 <= j < i ==> !IsCarrier(outputs[j].script)
  }

  /** The script pushes the commitment after OP_RETURN, or pays to the output key that
      the proof makes of it. */
  predicate Carries(c: Crypto, script: seq<Sym>, proof: DbcProof, commitment: Digest) {
    match proof
    case Opret => script == [B(0x6a), B(0x20), D(commitment)]
    case TapretProof(internal, nonce, partner) =>
      var key := Tapret.OutputKey(c, internal, commitment, nonce, partner);
      key.Ok? && script == [B(0x51), B(0x20), D(key.value)]
    case UnknownMethod(_) => false
  }

  lemma {:induction false} CarrierIs(outputs: seq<TxOut>)
    ensures forall i :: CarrierAt(outputs, i) ==> Carrier(outputs) == Some(outputs[i])
    ensures Carrier(outputs).Some? ==> exists i :: CarrierAt(outputs, i)
  {
    hide IsCarrier;
    if outputs != [] {
      var rest := outputs[1..];
      CarrierIs(rest);
      if IsCarrier(outputs[0].script) {
        assert CarrierAt(outputs, 0);
      } else {
        if Carrier(outputs).Some? {
          var i :| CarrierAt(rest, i);
          assert CarrierAt(outputs, i + 1) by {
            forall j | 0 <= j < i + 1 ensures !IsCarrier(outputs[j].script) { assert j > 0 ==> outputs[j] == rest[j - 1]; }
          }
        }
        forall i | CarrierAt(outputs, i) ensures Carrier(outputs) == Some(outputs[i]) {
          assert i > 0 && outputs[i] == rest[i - 1];
          assert forall j :: 0 <= j < i - 1 ==> rest[j] == outputs[j + 1];
          assert CarrierAt(rest, i - 1);
        }
      }
    }
  }

  lemma {:induction false} KeyScript(key: Digest)
    ensures IsTaproot(TapretPkScript(key)) && IsTaproot([B(0x51), B(0x20), D(key)])
  {
    var s := TapretPkScript(key);
    assert s == [B(0x51)] + ([B(0x20)] + [D(key)]);
    ByteLengthConcat([B(0x20)], [D(key)]);
    ByteLengthConcat([B(0x51)], [B(0x20)] + [D(key)]);
    assert ByteLength([B(0x51)]) == ByteLength([B(0x20)]) == 1 && ByteLength([D(key)]) == 32;
  }

  /** A transaction is accepted exactly when its first OP_RETURN or taproot output, and
      not merely a later one, carries the commitment by the method that the proof claims. */
  lemma {:induction false} AcceptedCarrier(c: Crypto, tx: Tx, proof: DbcProof, commitment: Digest)
    ensures VerifyDBC(c, tx, proof, commitment).Ok? <==>
            exists i :: CarrierAt(tx.outputs, i) && Carries(c, tx.outputs[i].script, proof, commitment)
  {
    hide Tapret.OutputKey, IsCarrier, IsTaproot;
    CarrierIs(tx.outputs);
    if Carrier(tx.outputs).Some? {
      var i :| CarrierAt(tx.outputs, i);
      assert Carrier(tx.outputs) == Some(tx.outputs[i]);
      match proof
      case TapretProof(internal, nonce, partner) =>
        var key := Tapret.OutputKey(c, internal, commitment, nonce, partner);
        if key.Ok? { KeyScript(key.value); }
      case _ =>
    }
  }

  predicate Bounded(proof: DbcProof) {
    proof.TapretProof? ==> Tapret.Bounded(proof.partner)
  }

  /** One transaction commits to one value, whichever methods are claimed. */
  lemma {:induction false} CarrierBinds(c: Crypto, tx: Tx, p: DbcProof, a: Digest, q: DbcProof, b: Digest)
    requires TotalOrder(c.less) && Bounded(p) && Bounded(q)
    requires VerifyDBC(c, tx, p, a).Ok? && VerifyDBC(c, tx, q, b).Ok?
    ensures a == b
  {
    var script := Carrier(tx.outputs).value.script;
    assert script[0] == if p.Opret? then B(0x6a) else B(0x51);
    assert script[0] == if q.Opret? then B(0x6a) else B(0x51);
    if p.Opret? && q.Opret? {
      assert OpretScript(a)[2] == OpretScript(b)[2];
    } else if p.TapretProof? && q.TapretProof? {
      var k, l := Tapret.OutputKey(c, p.internal, a, p.nonce, p.partner), Tapret.OutputKey(c, q.internal, b, q.nonce, q.partner);
      assert TapretPkScript(k.value)[2] == TapretPkScript(l.value)[2];
      Tapret.KeyBindsCommitment(c, p.internal, a, p.nonce, p.partner, q.internal, b, q.nonce, q.partner);
    }
  }

  /** A bundle is anchored in a transaction for one contract. */
  predicate Anchored(c: Crypto, tx: Tx, mpc: Mpc.Proof, dbc: DbcProof, contract: Digest, bundle: Digest) {
    && mpc.cofactor < U16 && Bounded(dbc)
    && Mpc.Convolution(c, mpc, contract, bundle).Ok?
    && VerifyDBC(c, tx, dbc, Mpc.Convolution(c, mpc, contract, bundle).value).Ok?
  }

  /** One witness transaction anchors at most one bundle of a contract. */
  lemma {:induction false} OneBundlePerWitness(c: Crypto, tx: Tx, contract: Digest, p: Mpc.Proof, d: DbcProof, a: Digest,
                            q: Mpc.Proof, e: DbcProof, b: Digest)
    requires TotalOrder(c.less)
    requires Anchored(c, tx, p, d, contract, a) && Anchored(c, tx, q, e, contract, b)
    ensures a == b
  {
    CarrierBinds(c, tx, d, Mpc.Convolution(c, p, contract, a).value, e, Mpc.Convolution(c, q, contract, b).value);
    Mpc.ConvolutionBinds(c, p, q, contract, a, b);
  }
}
