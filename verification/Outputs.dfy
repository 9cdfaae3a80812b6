/** Which outputs an operation adds to the ledger, and how removing inputs and
    adding outputs changes any quantity summed over the live outputs. */
module Outputs {
  import opened Anchor
  import opened Bytes
  import opened Catalog
  import opened Collections
  import opened Operations
  import opened Schemas
  import opened SchemaTotals
  import opened Symbols
  import opened Validator
  import opened Wrappers

  // ----- disclosed outputs

  /** The assignment an output reference points at is disclosed. */
  predicate IsRevealed(es: seq<Entry>, ty: nat, no: nat) {
    no < |Of(es, ty)| && Of(es, ty)[no].Revealed?
  }

  /** Positions are unique and never below `from`. */
  ghost predicate Positions(outs: seq<Output>, ty: nat, from: nat) {
    && (forall i :: 0 <= i < |outs| ==> outs[i].ty == ty && outs[i].no >= from)
    && (forall i, j :: 0 <= i < j < |outs| ==> outs[i].no < outs[j].no)
  }

  lemma {:induction false} RevealedFromPositions(ty: nat, assigns: seq<Assignment>, no: nat)
    ensures Positions(RevealedFrom(ty, assigns, no), ty, no)
  {
    if assigns != [] {
      RevealedFromPositions(ty, assigns[1..], no + 1);
    }
  }

  lemma {:induction false} RevealedFromHas(ty: nat, assigns: seq<Assignment>, no: nat, x: Output)
    ensures x in RevealedFrom(ty, assigns, no) <==>
            x.ty == ty && no <= x.no < no + |assigns| && assigns[x.no - no] == Revealed(x.seal, x.state)
  {
    if assigns != [] {
      RevealedFromHas(ty, assigns[1..], no + 1, x);
      assert no < x.no < no + |assigns| ==> assigns[x.no - no] == assigns[1..][x.no - no - 1];
      assert RevealedFrom(ty, assigns, no) ==
             (if assigns[0].Revealed? then [Output(ty, no, assigns[0].state, assigns[0].seal)] else []) + RevealedFrom(ty, assigns[1..], no + 1);
    }
  }

  /** The disclosed outputs are exactly the revealed assignments, under their own type and index. */
  lemma {:induction false} RevealedOutputsHas(es: seq<Entry>, x: Output)
    requires Increases(es)
    ensures x in RevealedOutputs(es) <==> x.no < |Of(es, x.ty)| && Of(es, x.ty)[x.no] == Revealed(x.seal, x.state)
  {
    if es != [] {
      IncreasesTail(es);
      RevealedOutputsHas(es[1..], x);
      RevealedFromHas(es[0].ty, es[0].assigns, 0, x);
      if x.ty == es[0].ty {
        NotMentioned(es[1..], x.ty);
      }
    }
  }

  ghost predicate DistinctOutputs(outs: seq<Output>) {
    forall i, j :: 0 <= i < j < |outs| ==> (outs[i].ty, outs[i].no) != (outs[j].ty, outs[j].no)
  }

  /** No two disclosed outputs share a reference. */
  lemma {:induction false} RevealedOutputsDistinct(es: seq<Entry>)
    requires Increases(es)
    ensures DistinctOutputs(RevealedOutputs(es))
  {
    if es != [] {
      IncreasesTail(es);
      RevealedOutputsDistinct(es[1..]);
      RevealedFromPositions(es[0].ty, es[0].assigns, 0);
      var a, b := RevealedFrom(es[0].ty, es[0].assigns, 0), RevealedOutputs(es[1..]);
      forall j | 0 <= j < |b| ensures b[j].ty != es[0].ty {
        RevealedOutputsHas(es[1..], b[j]);
        if b[j].ty == es[0].ty {
          NotMentioned(es[1..], es[0].ty);
        }
      }
    }
  }

  // ----- registration

  function RefOf(op: Digest, x: Output): InputRef {
    InputRef(op, x.ty, x.no)
  }

  ghost predicate Names(op: Digest, outs: seq<Output>, ref: InputRef) {
    exists i :: 0 <= i < |outs| && RefOf(op, outs[i]) == ref
  }

  lemma {:induction false} NamesCons(op: Digest, outs: seq<Output>, ref: InputRef)
    requires outs != []
    ensures Names(op, outs, ref) <==> RefOf(op, outs[0]) == ref || Names(op, outs[1..], ref)
  {
    if Names(op, outs[1..], ref) {
      var i :| 0 <= i < |outs[1..]| && RefOf(op, outs[1..][i]) == ref;
      assert RefOf(op, outs[i + 1]) == ref;
    }
    if Names(op, outs, ref) {
      var i :| 0 <= i < |outs| && RefOf(op, outs[i]) == ref;
      assert i > 0 ==> RefOf(op, outs[1..][i - 1]) == ref;
    }
    assert RefOf(op, outs[0]) == ref ==> Names(op, outs, ref);
  }

  lemma {:induction false} RegisterKeys(states: map<InputRef, Placed>, op: Digest, outs: seq<Output>, txid: Digest, ref: InputRef)
    requires Register(states, op, outs, txid).Ok?
    ensures var m := Register(states, op, outs, txid).value;
            && (ref in m <==> ref in states || Names(op, outs, ref))
            && (ref in states && !Names(op, outs, ref) ==> m[ref] == states[ref])
    decreases outs
  {
    hide Placing;
    if outs != [] {
      var placed := Placing(outs[0].state, outs[0].seal, txid).value;
      RegisterKeys(states[RefOf(op, outs[0]) := placed], op, outs[1..], txid, ref);
      NamesCons(op, outs, ref);
    }
  }

  lemma {:induction false} DistinctTail(op: Digest, outs: seq<Output>)
    requires DistinctOutputs(outs) && outs != []
    ensures DistinctOutputs(outs[1..]) && !Names(op, outs[1..], RefOf(op, outs[0]))
  {
    var rest := outs[1..];
    forall i, j | 0 <= i < j < |rest| ensures (rest[i].ty, rest[i].no) != (rest[j].ty, rest[j].no) {
      assert (outs[i + 1].ty, outs[i + 1].no) != (outs[j + 1].ty, outs[j + 1].no);
    }
    forall i | 0 <= i < |rest| ensures RefOf(op, rest[i]) != RefOf(op, outs[0]) {
      assert (outs[0].ty, outs[0].no) != (outs[i + 1].ty, outs[i + 1].no);
    }
  }

  lemma {:induction false} RegisterValues(states: map<InputRef, Placed>, op: Digest, outs: seq<Output>, txid: Digest, i: nat)
    requires Register(states, op, outs, txid).Ok? && DistinctOutputs(outs) && i < |outs|
    ensures Placing(outs[i].state, outs[i].seal, txid).Ok?
    ensures var m := Register(states, op, outs, txid).value;
            RefOf(op, outs[i]) in m && m[RefOf(op, outs[i])] == Placing(outs[i].state, outs[i].seal, txid).value
    decreases outs
  {
    hide Placing;
    var placed := Placing(outs[0].state, outs[0].seal, txid).value;
    var next := states[RefOf(op, outs[0]) := placed];
    DistinctTail(op, outs);
    if i == 0 {
      RegisterKeys(next, op, outs[1..], txid, RefOf(op, outs[0]));
    } else {
      RegisterValues(next, op, outs[1..], txid, i - 1);
    }
  }

  /** An operation under a fresh id adds exactly its disclosed outputs, each where
      its seal places it, and leaves every other output as it was. */
  lemma {:induction false} RegisterMeans(states: map<InputRef, Placed>, op: Digest, es: seq<Entry>, txid: Digest, ref: InputRef)
    requires Increases(es) && Register(states, op, RevealedOutputs(es), txid).Ok?
    requires forall r :: r in states ==> r.op != op
    ensures var m := Register(states, op, RevealedOutputs(es), txid).value;
            && (ref in m <==> if ref.op == op then IsRevealed(es, ref.ty, ref.no) else ref in states)
            && (ref.op != op && ref in states ==> m[ref] == states[ref])
            && (ref.op == op && ref in m ==>
                  var a := Of(es, ref.ty)[ref.no];
                  Placing(a.state, a.seal, txid) == Ok(m[ref]))
  {
    hide Placing, Register;
    var outs := RevealedOutputs(es);
    RegisterKeys(states, op, outs, txid, ref);
    RevealedOutputsDistinct(es);
    if Names(op, outs, ref) {
      var i :| 0 <= i < |outs| && RefOf(op, outs[i]) == ref;
      RevealedOutputsHas(es, outs[i]);
      RegisterValues(states, op, outs, txid, i);
    }
    if ref.op == op && IsRevealed(es, ref.ty, ref.no) {
      var a := Of(es, ref.ty)[ref.no];
      var x := Output(ref.ty, ref.no, a.state, a.seal);
      RevealedOutputsHas(es, x);
      var i :| 0 <= i < |outs| && outs[i] == x;
      assert RefOf(op, outs[i]) == ref;
    }
  }

  // ----- sums over the live outputs

  type Weight = (InputRef, State) -> nat

  /** A quantity summed over all live outputs. */
  ghost function Weigh(m: map<InputRef, Placed>, w: Weight): nat
    decreases |m|
  {
    if m == map[] then 0 else
      var r :| r in m;
      assert |m - {r}| < |m| by { SmallerMap(m, r); }
      w(r, m[r].state) + Weigh(m - {r}, w)
  }

  lemma {:induction false} SmallerMap<V>(m: map<InputRef, V>, r: InputRef)
    requires r in m
    ensures |m - {r}| < |m|
  {
    assert (m - {r}).Keys == m.Keys - {r};
    assert |(m - {r}).Keys| == |m - {r}| && |m.Keys| == |m|;
  }

  lemma {:induction false} WeighRemove(m: map<InputRef, Placed>, r: InputRef, w: Weight)
    requires r in m
    ensures Weigh(m, w) == w(r, m[r].state) + Weigh(m - {r}, w)
    decreases |m|
  {
    var s :| s in m && Weigh(m, w) == w(s, m[s].state) + Weigh(m - {s}, w);
    if s != r {
      SmallerMap(m, s);
      SmallerMap(m, r);
      WeighRemove(m - {s}, r, w);
      WeighRemove(m - {r}, s, w);
      assert m - {s} - {r} == m - {r} - {s};
    }
  }

  lemma {:induction false} WeighAdd(m: map<InputRef, Placed>, r: InputRef, p: Placed, w: Weight)
    requires r !in m
    ensures Weigh(m[r := p], w) == w(r, p.state) + Weigh(m, w)
  {
    WeighRemove(m[r := p], r, w);
    assert m[r := p] - {r} == m;
  }

  function InputWeight(m: map<InputRef, Placed>, inputs: seq<InputRef>, w: Weight): nat {
    if inputs == [] then 0 else (if inputs[0] in m then w(inputs[0], m[inputs[0]].state) else 0) + InputWeight(m, inputs[1..], w)
  }

  lemma {:induction false} InputWeightSame(m: map<InputRef, Placed>, n: map<InputRef, Placed>, inputs: seq<InputRef>, w: Weight)
    requires forall r :: r in inputs ==> (r in m <==> r in n) && (r in m ==> m[r] == n[r])
    ensures InputWeight(m, inputs, w) == InputWeight(n, inputs, w)
  {
    if inputs != [] {
      assert inputs[0] in inputs;
      InputWeightSame(m, n, inputs[1..], w);
    }
  }

  /** Spending distinct live outputs takes exactly their weights away. */
  lemma {:induction false} WeighSpend(m: map<InputRef, Placed>, inputs: seq<InputRef>, w: Weight)
    requires Distinct(inputs) && forall r :: r in inputs ==> r in m
    ensures Weigh(m, w) == InputWeight(m, inputs, w) + Weigh(m - Elements(inputs), w)
  {
    if inputs == [] {
      assert m - Elements(inputs) == m;
    } else {
      var r, rest := inputs[0], inputs[1..];
      DistinctRest(inputs);
      WeighRemove(m, r, w);
      WeighSpend(m - {r}, rest, w);
      InputWeightSame(m - {r}, m, rest, w);
      assert m - Elements(inputs) == m - {r} - Elements(rest) by {
        assert inputs == [r] + rest;
        assert Elements(inputs) == {r} + Elements(rest);
      }
    }
  }

  lemma {:induction false} DistinctRest<T>(s: seq<T>)
    requires Distinct(s) && s != []
    ensures Distinct(s[1..]) && s[0] !in s[1..]
  {
    forall i, j | 0 <= i < j < |s[1..]| ensures s[1..][i] != s[1..][j] { assert s[i + 1] != s[j + 1]; }
    forall i | 0 <= i < |s[1..]| ensures s[1..][i] != s[0] { assert s[0] != s[i + 1]; }
  }

  function OutputWeight(op: Digest, outs: seq<Output>, w: Weight): nat {
    if outs == [] then 0 else w(RefOf(op, outs[0]), outs[0].state) + OutputWeight(op, outs[1..], w)
  }

  /** Registering fresh outputs adds exactly their weights. */
  lemma {:induction false} WeighRegister(states: map<InputRef, Placed>, op: Digest, outs: seq<Output>, txid: Digest, w: Weight)
    requires DistinctOutputs(outs) && Register(states, op, outs, txid).Ok?
    requires forall r :: r in states ==> !Names(op, outs, r)
    ensures Weigh(Register(states, op, outs, txid).value, w) == Weigh(states, w) + OutputWeight(op, outs, w)
    decreases outs
  {
    if outs != [] {
      PlacingState(outs[0].state, outs[0].seal, txid);
      hide Placing;
      var r := RefOf(op, outs[0]);
      var placed := Placing(outs[0].state, outs[0].seal, txid).value;
      NamesCons(op, outs, r);
      WeighAdd(states, r, placed, w);
      DistinctTail(op, outs);
      forall s | s in states[r := placed] ensures !Names(op, outs[1..], s) {
        NamesCons(op, outs, s);
      }
      WeighRegister(states[r := placed], op, outs[1..], txid, w);
    }
  }

  lemma {:induction false} PlacingState(state: State, seal: Seal, txid: Digest)
    ensures Placing(state, seal, txid).Ok? ==> Placing(state, seal, txid).value.state == state
  {
  }
}
