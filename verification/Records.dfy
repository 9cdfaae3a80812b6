/** What operation and bundle ids hash, symbol by symbol. */
module Records {
  import opened Bytes
  import opened Merkle
  import opened MerkleShape
  import opened Operations
  import opened Symbols

  // ----- numbers

  function Two(v: nat): seq<Sym> {
    [B(v % 256), B(v / 256 % 256)]
  }

  function Four(v: nat): seq<Sym> {
    [B(v % 256), B(v / 256 % 256), B(v / 65536 % 256), B(v / 16777216 % 256)]
  }

  /** Eight bytes, the low four before the high four. */
  function Eight(v: nat): seq<Sym> {
    Four(v) + Four(v / 0x1_0000_0000)
  }

  lemma {:induction false} Spell(v: nat)
    ensures LE(v, 1) == [B(v % 256)] && LE(v, 2) == Two(v) && LE(v, 4) == Four(v) && LE(v, 8) == Eight(v)
  {
    FourBytes(v);
    FourBytes(v / 0x1_0000_0000);
    assert LittleEndian(v, 1) == [v % 256] + LittleEndian(v / 256, 0);
    assert LittleEndian(v, 2) == [v % 256] + LittleEndian(v / 256, 1);
    assert LittleEndian(v / 256, 1) == [v / 256 % 256] + LittleEndian(v / 256 / 256, 0);
    HighBytes(v);
    assert LE(v, 8) == LE(v, 4) + LE(v / 0x1_0000_0000, 4);
  }

  lemma {:induction false} FourTimes(v: nat)
    ensures v / 256 / 256 / 256 / 256 == v / 0x1_0000_0000
  {
  }

  lemma {:induction false} HighBytes(v: nat)
    ensures LittleEndian(v, 8) == LittleEndian(v, 4) + LittleEndian(v / 0x1_0000_0000, 4)
  {
    FourTimes(v);
    Halves(v, v / 256, v / 256 / 256, v / 256 / 256 / 256, v / 256 / 256 / 256 / 256);
  }

  lemma {:induction false} Halves(v: nat, a: nat, b: nat, c: nat, d: nat)
    requires a == v / 256 && b == a / 256 && c == b / 256 && d == c / 256
    ensures LittleEndian(v, 8) == LittleEndian(v, 4) + LittleEndian(d, 4)
  {
    assert LittleEndian(c, 5) == [c % 256] + LittleEndian(d, 4) && LittleEndian(c, 1) == [c % 256] + LittleEndian(d, 0);
    assert LittleEndian(b, 6) == [b % 256] + LittleEndian(c, 5) && LittleEndian(b, 2) == [b % 256] + LittleEndian(c, 1);
    assert LittleEndian(a, 7) == [a % 256] + LittleEndian(b, 6) && LittleEndian(a, 3) == [a % 256] + LittleEndian(b, 2);
    assert LittleEndian(v, 8) == [v % 256] + LittleEndian(a, 7) && LittleEndian(v, 4) == [v % 256] + LittleEndian(a, 3);
  }

  // ----- seals, states, assignments

  /** A seal: its transaction, or whether it names one, then output number and blinding. */
  lemma {:induction false} SealIs(txid: Digest, vout: nat, blinding: nat)
    ensures Conceal(BlindSeal(txid, vout, blinding)) == Hash(SecretSeal, [D(txid)] + Four(vout) + Eight(blinding))
    ensures Conceal(GraphSeal(TxId(txid), vout, blinding)) == Hash(SecretSeal, [B(1), D(txid)] + Four(vout) + Eight(blinding))
    ensures Conceal(GraphSeal(WitnessTx, vout, blinding)) == Hash(SecretSeal, [B(0)] + Four(vout) + Eight(blinding))
  {
    hide LE, Four, Eight;
    Spell(vout);
    Spell(blinding);
    assert [D(txid)] + (Four(vout) + Eight(blinding)) == [D(txid)] + Four(vout) + Eight(blinding);
    assert [B(1), D(txid)] + (Four(vout) + Eight(blinding)) == [B(1), D(txid)] + Four(vout) + Eight(blinding);
    assert [B(0)] + (Four(vout) + Eight(blinding)) == [B(0)] + Four(vout) + Eight(blinding);
  }

  /** An assignment: its type, the state, marked by its class, and the concealed seal. */
  lemma {:induction false} AssignmentIs(ty: nat, secret: Digest, seal: Seal, amount: u64, data: Data)
    ensures AssignmentRecord(ty, Confidential(secret, Declarative)) == Two(ty) + [D(secret)]
    ensures AssignmentRecord(ty, Confidential(secret, Fungible(amount))) == Two(ty) + [B(8)] + Eight(amount) + [D(secret)]
    ensures AssignmentRecord(ty, Confidential(secret, Structured(data))) == Two(ty) + Two(ByteLength(data)) + data + [D(secret)]
    ensures forall state :: AssignmentRecord(ty, Revealed(seal, state)) == AssignmentRecord(ty, Confidential(Conceal(seal), state))
  {
    hide LE, Two, Eight, ByteLength;
    Spell(ty);
    Spell(amount);
    Spell(ByteLength(data));
    assert Two(ty) + ([B(8)] + Eight(amount)) == Two(ty) + [B(8)] + Eight(amount);
    assert Two(ty) + (Two(ByteLength(data)) + data) == Two(ty) + Two(ByteLength(data)) + data;
  }

  lemma {:induction false} GlobalIs(ty: nat, value: Data)
    ensures GlobalRecord(ty, value) == Two(ty) + Two(ByteLength(value)) + value
  {
    hide LE, Two, ByteLength;
    Spell(ty);
    Spell(ByteLength(value));
    assert Two(ty) + (Two(ByteLength(value)) + value) == Two(ty) + Two(ByteLength(value)) + value;
  }

  /** An output reference: operation id, type, number. */
  lemma {:induction false} RefIs(r: InputRef)
    ensures RefRecord(r) == [D(r.op), B(r.ty % 256), B(r.ty / 256 % 256), B(r.no % 256), B(r.no / 256 % 256)]
  {
    Spell(r.ty);
    Spell(r.no);
  }

  // ----- lists of records

  /** How many assignments stand before those of entry `i`. */
  function Before(es: seq<Entry>, i: nat): nat
    requires i <= |es|
  {
    if i == 0 then 0 else |es[0].assigns| + Before(es[1..], i - 1)
  }

  /** The leaves over the assignments: entry by entry, each under its type, in order. */
  lemma {:induction false} RecordAt(es: seq<Entry>, i: nat, j: nat)
    ensures |Records(es)| == Before(es, |es|)
    ensures i < |es| && j < |es[i].assigns| ==>
              Before(es, i) + j < |Records(es)| && Records(es)[Before(es, i) + j] == AssignmentRecord(es[i].ty, es[i].assigns[j])
  {
    hide AssignmentRecord;
    if es != [] {
      var own, rest := EntryRecords(es[0].ty, es[0].assigns), Records(es[1..]);
      RecordAt(es[1..], if i > 0 then i - 1 else 0, j);
      assert Records(es) == own + rest;
      if 0 < i < |es| && j < |es[i].assigns| {
        assert es[i] == es[1..][i - 1];
        assert (own + rest)[|own| + (Before(es[1..], i - 1) + j)] == rest[Before(es[1..], i - 1) + j];
      }
    }
  }

  function ValuesBefore(gs: seq<Global>, i: nat): nat
    requires i <= |gs|
  {
    if i == 0 then 0 else |gs[0].values| + ValuesBefore(gs[1..], i - 1)
  }

  /** And those over the globals. */
  lemma {:induction false} GlobalAt(gs: seq<Global>, i: nat, j: nat)
    ensures |GlobalRecords(gs)| == ValuesBefore(gs, |gs|)
    ensures i < |gs| && j < |gs[i].values| ==>
              ValuesBefore(gs, i) + j < |GlobalRecords(gs)|
              && GlobalRecords(gs)[ValuesBefore(gs, i) + j] == GlobalRecord(gs[i].ty, gs[i].values[j])
  {
    hide GlobalRecord;
    if gs != [] {
      var own, rest := ValueRecords(gs[0].ty, gs[0].values), GlobalRecords(gs[1..]);
      GlobalAt(gs[1..], if i > 0 then i - 1 else 0, j);
      assert GlobalRecords(gs) == own + rest;
      if 0 < i < |gs| && j < |gs[i].values| {
        assert gs[i] == gs[1..][i - 1];
        assert (own + rest)[|own| + (ValuesBefore(gs[1..], i - 1) + j)] == rest[ValuesBefore(gs[1..], i - 1) + j];
      }
    }
  }

  /** Metadata entries follow one another, each as its type, its length and its bytes. */
  lemma {:induction false} MetaIs(ms: seq<Meta>, m: Meta)
    ensures MetaRecord([]) == []
    ensures MetaRecord(ms + [m]) == MetaRecord(ms) + Two(m.ty) + Two(ByteLength(m.value)) + m.value
  {
    hide LE, Two, ByteLength;
    Spell(m.ty);
    Spell(ByteLength(m.value));
    var own := Two(m.ty) + Two(ByteLength(m.value)) + m.value;
    if ms == [] {
      assert ms + [m] == [m] && [m][1..] == [];
      assert MetaRecord([m]) == own + MetaRecord([]);
      assert own + [] == own;
    } else {
      MetaIs(ms[1..], m);
      assert (ms + [m])[1..] == ms[1..] + [m];
    }
  }

  /** Committed inputs follow one another, each as its reference and its operation. */
  lemma {:induction false} InputMapIs(m: seq<Commit>, c: Commit)
    ensures InputMapRecord([]) == []
    ensures InputMapRecord(m + [c]) == InputMapRecord(m) + RefRecord(c.input) + [D(c.op)]
    ensures BundleId(m) == Hash(Tag.Bundle, Two(|m|) + InputMapRecord(m))
  {
    hide RefRecord, LE, Two;
    Spell(|m|);
    if m == [] {
      assert m + [c] == [c] && [c][1..] == [];
      assert RefRecord(c.input) + [D(c.op)] + InputMapRecord([]) == InputMapRecord([]) + RefRecord(c.input) + [D(c.op)];
    } else {
      InputMapIs(m[1..], c);
      assert (m + [c])[1..] == m[1..] + [c];
    }
  }

  // ----- operations

  /** The four commitments an operation ends with: metadata, globals, inputs, assignments. */
  function Tail(metadata: seq<Meta>, globals: seq<Global>, inputs: seq<InputRef>, assignments: seq<Entry>): seq<Sym> {
    [D(Hash(StrictValue, [B(|metadata| % 256)] + MetaRecord(metadata))),
     D(MerkleRoot(Leaves(GlobalRecords(globals)))),
     D(MerkleRoot(Leaves(RefRecords(inputs)))),
     D(MerkleRoot(Leaves(Records(assignments))))]
  }

  lemma {:induction false} TailIs(metadata: seq<Meta>, globals: seq<Global>, inputs: seq<InputRef>, assignments: seq<Entry>)
    ensures Roots(metadata, globals, inputs, assignments) == Tail(metadata, globals, inputs, assignments)
  {
    hide MerkleRoot, Leaves, LE;
    Spell(|metadata|);
  }

  /** A transition: its version, its nonce, that it is none of genesis, its contract, its type, and the four commitments. */
  lemma {:induction false} TransitionIs(t: Transition)
    ensures TransitionId(t) == Hash(Operation, Two(t.ffv) + Eight(t.nonce) + [B(1), D(t.contractId)] + Two(t.ty)
                                               + Tail(t.metadata, t.globals, t.inputs, t.assignments))
  {
    hide LE, Two, Eight, Tail, Roots;
    Spell(t.ffv);
    Spell(t.nonce);
    Spell(t.ty);
    TailIs(t.metadata, t.globals, t.inputs, t.assignments);
    Reassociate(Two(t.ffv), Eight(t.nonce), [B(1), D(t.contractId)], Two(t.ty), Tail(t.metadata, t.globals, t.inputs, t.assignments));
  }

  lemma {:induction false} Reassociate(a: seq<Sym>, b: seq<Sym>, c: seq<Sym>, d: seq<Sym>, e: seq<Sym>)
    ensures a + (b + (c + (d + e))) == a + b + c + d + e
  {
    assert c + (d + e) == c + d + e;
    assert b + (c + d + e) == b + c + d + e;
  }

  lemma {:induction false} Largest(n: nat)
    ensures LittleEndian(Pow256(n) - 1, n) == Repeat(0xff, n)
  {
    if n > 0 {
      Largest(n - 1);
      var v := Pow256(n) - 1;
      assert v == 256 * (Pow256(n - 1) - 1) + 255;
      assert v % 256 == 255 && v / 256 == Pow256(n - 1) - 1;
    }
  }

  lemma {:induction false} IssuerIs(issuer: Data)
    ensures DataRecord(issuer) == Two(ByteLength(issuer)) + issuer
  {
    Spell(ByteLength(issuer));
  }

  lemma {:induction false} NonceIs()
    ensures LE(U64 - 1, 8) == Plain(Repeat(0xff, 8))
  {
    Pow256Widths();
    Largest(8);
  }

  /** A genesis: its version, the largest nonce, that it is one, its schema, its time, its issuer,
      chain and closing strategy, and the four commitments, to no input. */
  lemma {:induction false} GenesisIs(g: Genesis)
    ensures GenesisId(g) == Hash(Operation, Two(g.ffv) + Plain(Repeat(0xff, 8)) + [B(0), D(g.schemaId)] + Eight(g.timestamp)
                                            + ([D(Hash(StrictValue, Two(ByteLength(g.issuer)) + g.issuer)), B(g.chain), B(g.strategy)]
                                               + Tail(g.metadata, g.globals, [], g.assignments)))
  {
    hide LE, Two, Eight, Tail, Roots, ByteLength, Plain, Repeat, DataRecord;
    Spell(g.ffv);
    Spell(g.timestamp);
    IssuerIs(g.issuer);
    NonceIs();
    TailIs(g.metadata, g.globals, [], g.assignments);
    Reassociate(Two(g.ffv), Plain(Repeat(0xff, 8)), [B(0), D(g.schemaId)], Eight(g.timestamp),
                [D(Hash(StrictValue, Two(ByteLength(g.issuer)) + g.issuer)), B(g.chain), B(g.strategy)]
                + Tail(g.metadata, g.globals, [], g.assignments));
  }
}
