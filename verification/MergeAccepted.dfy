/** What validation accepts is fit for merging: parents come first, and no bundle
    discloses an operation twice. */
module MergeAccepted {
  import opened Agreement
  import opened Bytes
  import opened Catalog
  import opened Commitments
  import opened Merge
  import opened MergeOrder
  import opened MergeSuccess
  import opened Operations
  import opened Outputs
  import opened Safety
  import opened SchemaAccepts
  import opened Schemas
  import opened SchemaTotals
  import opened Symbols
  import opened Validator
  import opened Wrappers
  import Mpc

  ghost predicate Stood(bundles: seq<WitnessBundle>, op: Digest) {
    exists q, j :: Stands(bundles, q, j, op)
  }

  /** The graph holds genesis, the operations of the finished bundles, and those of the current one so far. */
  ghost predicate Holds(g: Genesis, l: Ledger, done: seq<WitnessBundle>, current: seq<Known>) {
    forall op :: op in l.graph <==> op == GenesisId(g) || Stood(done, op) || Has(current, op)
  }

  /** The first transitions of the next bundle stand in order and are all different. */
  ghost predicate GoodPart(g: Genesis, done: seq<WitnessBundle>, known: seq<Known>, n: nat)
    requires n <= |known|
  {
    && DistinctKnown(known[..n])
    && forall k, r :: 0 <= k < n && r in known[k].transition.inputs ==>
         r.op == GenesisId(g) || Stood(done, r.op) || Has(known[..k], r.op)
  }

  lemma {:induction false} OneMore(env: Env, mode: Mode, g: Genesis, l: Ledger, o: Opened, done: seq<WitnessBundle>, known: seq<Known>, n: nat)
    requires Safe(g, l) && n < |known| && CanonicalTransition(known[n].transition)
    requires Apply(env, mode, GenesisId(g), l, o, known[n].transition).Ok?
    requires Holds(g, l, done, known[..n]) && GoodPart(g, done, known, n)
    ensures var m := Apply(env, mode, GenesisId(g), l, o, known[n].transition).value;
            Safe(g, m) && Holds(g, m, done, known[..n + 1]) && GoodPart(g, done, known, n + 1)
  {
    hide Apply, Safe, GenesisId, IdOf, CanonicalTransition, Stood, Has, DistinctKnown;
    var t := known[n].transition;
    GraphAfter(env, mode, g, l, o, known[n]);
    assert known[..n + 1] == known[..n] + [known[n]];
    HasMore(known[..n], known[n]);
    DistinctMore(known[..n], known[n]);
  }

  /** The graph grows by a new operation that builds on what is in it. */
  lemma {:induction false} GraphAfter(env: Env, mode: Mode, g: Genesis, l: Ledger, o: Opened, k: Known)
    requires Safe(g, l) && CanonicalTransition(k.transition) && Apply(env, mode, GenesisId(g), l, o, k.transition).Ok?
    ensures var m := Apply(env, mode, GenesisId(g), l, o, k.transition).value;
            && Safe(g, m) && IdOf(k) !in l.graph && (forall op :: op in m.graph <==> op in l.graph || op == IdOf(k))
            && (forall r :: r in k.transition.inputs ==> r.op in l.graph)
  {
    hide Apply, Safe, GenesisId, TransitionId, CanonicalTransition;
    KeepsSafe(env, mode, g, l, o, k.transition);
    Applied(env, mode, GenesisId(g), l, o, k.transition);
    FreshId(env, mode, g, l, o, k.transition);
    assert IdOf(k) == TransitionId(k.transition);
    SourcesKnown(g, l, o, k.transition);
  }

  lemma {:induction false} SourcesKnown(g: Genesis, l: Ledger, o: Opened, t: Transition)
    requires Safe(g, l) && forall i :: 0 <= i < |t.inputs| ==> InputAccepted(l, o, TransitionId(t), t.inputs[i])
    ensures forall r :: r in t.inputs ==> r.op in l.graph
  {
    hide Safe, TransitionId, InputMapCommits;
    forall r | r in t.inputs ensures r.op in l.graph {
      var i :| 0 <= i < |t.inputs| && t.inputs[i] == r;
      assert InputAccepted(l, o, TransitionId(t), t.inputs[i]);
      LiveKnown(g, l, r);
    }
  }

  lemma {:induction false} HasMore(known: seq<Known>, x: Known)
    ensures forall op :: Has(known + [x], op) <==> Has(known, op) || IdOf(x) == op
  {
    hide IdOf;
    forall op ensures Has(known + [x], op) <==> Has(known, op) || IdOf(x) == op {
      if Has(known, op) {
        var k :| 0 <= k < |known| && IdOf(known[k]) == op;
        assert (known + [x])[k] == known[k];
      }
      assert (known + [x])[|known|] == x;
    }
  }

  lemma {:induction false} DistinctMore(known: seq<Known>, x: Known)
    requires DistinctKnown(known) && !Has(known, IdOf(x))
    ensures DistinctKnown(known + [x])
  {
    hide IdOf;
  }

  /** The transitions of one bundle. */
  lemma {:induction false} BundleStands(env: Env, mode: Mode, g: Genesis, l: Ledger, o: Opened, done: seq<WitnessBundle>, known: seq<Known>, n: nat)
    requires Safe(g, l) && n <= |known| && forall k :: 0 <= k < |known| ==> CanonicalTransition(known[k].transition)
    requires Replay(env, mode, GenesisId(g), l, StepsOf(o, Transitions(known[n..]))).Ok?
    requires Holds(g, l, done, known[..n]) && GoodPart(g, done, known, n)
    ensures var m := Replay(env, mode, GenesisId(g), l, StepsOf(o, Transitions(known[n..]))).value;
            Safe(g, m) && Holds(g, m, done, known) && GoodPart(g, done, known, |known|)
    decreases |known| - n
  {
    hide Apply, Safe, GenesisId, TransitionId, CanonicalTransition, Holds, GoodPart;
    if n == |known| {
      assert known[..n] == known && known[n..] == [];
      assert Replay(env, mode, GenesisId(g), l, []) == Ok(l);
    } else {
      var ts := Transitions(known[n..]);
      assert ts[0] == known[n].transition && ts[1..] == Transitions(known[n + 1..]) by {
        assert known[n..][1..] == known[n + 1..];
      }
      var steps := StepsOf(o, ts);
      assert steps[0] == Step(o, ts[0]) && steps[1..] == StepsOf(o, ts[1..]);
      OneMore(env, mode, g, l, o, done, known, n);
      BundleStands(env, mode, g, Apply(env, mode, GenesisId(g), l, o, known[n].transition).value, o, done, known, n + 1);
    }
  }

  lemma {:induction false} StoodMore(done: seq<WitnessBundle>, wb: WitnessBundle)
    ensures forall op :: Stood(done + [wb], op) <==> Stood(done, op) || Has(wb.bundle.known, op)
  {
    hide IdOf;
    var more := done + [wb];
    forall op ensures Stood(more, op) <==> Stood(done, op) || Has(wb.bundle.known, op) {
      if Stood(done, op) {
        var q, j :| Stands(done, q, j, op);
        assert Stands(more, q, j, op);
      }
      if Has(wb.bundle.known, op) {
        var k :| 0 <= k < |wb.bundle.known| && IdOf(wb.bundle.known[k]) == op;
        assert Stands(more, |done|, k, op);
      }
      if Stood(more, op) {
        var q, j :| Stands(more, q, j, op);
        assert q < |done| ==> Stands(done, q, j, op);
      }
    }
  }

  lemma {:induction false} OrderedMore(g: Genesis, done: seq<WitnessBundle>, wb: WitnessBundle)
    requires Ordered(GenesisId(g), done) && GoodPart(g, done, wb.bundle.known, |wb.bundle.known|)
    ensures Ordered(GenesisId(g), done + [wb])
  {
    hide IdOf, GenesisId;
    var more, known := done + [wb], wb.bundle.known;
    forall p, k, r | 0 <= p < |more| && 0 <= k < |more[p].bundle.known| && r in more[p].bundle.known[k].transition.inputs && r.op != GenesisId(g)
      ensures Before(more, p, k, r.op)
    {
      if p < |done| {
        assert Before(done, p, k, r.op);
        var q, j :| Stands(done, q, j, r.op) && (q < p || (q == p && j < k));
        assert Stands(more, q, j, r.op);
      } else if Stood(done, r.op) {
        var q, j :| Stands(done, q, j, r.op);
        assert Stands(more, q, j, r.op);
      } else {
        assert Has(known[..k], r.op);
        var j :| 0 <= j < |known[..k]| && IdOf(known[..k][j]) == r.op;
        assert Stands(more, |done|, j, r.op);
      }
    }
  }

  ghost predicate AllDistinct(bundles: seq<WitnessBundle>) {
    forall p :: 0 <= p < |bundles| ==> DistinctKnown(bundles[p].bundle.known)
  }

  lemma {:induction false} OpenedKnown(env: Env, mode: Mode, contract: Digest, wb: WitnessBundle)
    requires Open(env, mode.allowPrepared, contract, wb).Ok?
    ensures Open(env, mode.allowPrepared, contract, wb).value.transitions == Transitions(wb.bundle.known)
  {
    hide BundleId, Anchor.VerifyDBC, Mpc.Convolution, Resolved, KnownError;
  }

  lemma {:induction false} OneBundle(env: Env, mode: Mode, g: Genesis, done: seq<WitnessBundle>, wb: WitnessBundle, l: Ledger)
    requires Safe(g, l) && Holds(g, l, done, []) && Ordered(GenesisId(g), done) && AllDistinct(done) && CanonicalWitnessBundle(wb)
    requires Open(env, mode.allowPrepared, GenesisId(g), wb).Ok?
    requires var o := Open(env, mode.allowPrepared, GenesisId(g), wb).value; Replay(env, mode, GenesisId(g), l, StepsOf(o, o.transitions)).Ok?
    ensures var o := Open(env, mode.allowPrepared, GenesisId(g), wb).value;
            var m := Replay(env, mode, GenesisId(g), l, StepsOf(o, o.transitions)).value;
            Safe(g, m) && Holds(g, m, done + [wb], []) && Ordered(GenesisId(g), done + [wb]) && AllDistinct(done + [wb])
  {
    hide Open, Replay, Safe, GenesisId, CanonicalTransition, Ordered, IdOf, Stood;
    var o := Open(env, mode.allowPrepared, GenesisId(g), wb).value;
    var known := wb.bundle.known;
    OpenedKnown(env, mode, GenesisId(g), wb);
    assert known[0..] == known && known[..0] == [] && known[..|known|] == known;
    BundleStands(env, mode, g, l, o, done, known, 0);
    StoodMore(done, wb);
    OrderedMore(g, done, wb);
  }

  lemma {:induction false} BundlesStand(env: Env, mode: Mode, g: Genesis, done: seq<WitnessBundle>, bundles: seq<WitnessBundle>, r: Run)
    requires Safe(g, r.ledger) && Holds(g, r.ledger, done, []) && Ordered(GenesisId(g), done) && AllDistinct(done)
    requires (forall i :: 0 <= i < |bundles| ==> CanonicalWitnessBundle(bundles[i])) && RunBundles(env, mode, GenesisId(g), bundles, r).Ok?
    ensures Ordered(GenesisId(g), done + bundles) && AllDistinct(done + bundles)
    decreases bundles
  {
    hide Open, Replay, Safe, GenesisId, Holds, Ordered, AllDistinct, CanonicalWitnessBundle;
    if bundles == [] {
      assert done + bundles == done;
    } else {
      var o := Open(env, mode.allowPrepared, GenesisId(g), bundles[0]).value;
      var l := Replay(env, mode, GenesisId(g), r.ledger, StepsOf(o, o.transitions)).value;
      assert CanonicalWitnessBundle(bundles[0]);
      OneBundle(env, mode, g, done, bundles[0], r.ledger);
      assert forall i :: 0 <= i < |bundles[1..]| ==> bundles[1..][i] == bundles[i + 1];
      assert done + [bundles[0]] + bundles[1..] == done + bundles;
      BundlesStand(env, mode, g, done + [bundles[0]], bundles[1..], Close(r, l, o));
    }
  }

  lemma {:induction false} StartHolds(g: Genesis)
    requires Start(g).Ok?
    ensures Holds(g, Start(g).value, [], []) && Ordered(GenesisId(g), []) && AllDistinct([])
  {
    hide GenesisId, Register;
  }

  /** Every accepted container, in any mode: all parents are disclosed before their
      children, and no bundle discloses an operation twice. */
  lemma {:induction false} AcceptedIsOrdered(env: Env, mode: Mode, c: Consignment)
    requires CanonicalConsignment(c) && RunAll(env, mode, c).Ok?
    ensures Ordered(GenesisId(c.genesis), c.bundles) && AllDistinct(c.bundles)
  {
    hide GenesisId, RunBundles, Start, GenesisError, Safe, Holds, Ordered, AllDistinct, CanonicalGenesis, CanonicalWitnessBundle;
    SafeStart(c.genesis);
    StartHolds(c.genesis);
    BundlesStand(env, mode, c.genesis, [], c.bundles, Run(Start(c.genesis).value, map[], true));
    assert [] + c.bundles == c.bundles;
  }

  // ----- accepted containers merge whenever they know the same operations

  lemma {:induction false} AppliedPlain(env: Env, mode: Mode, contract: Digest, l: Ledger, o: Opened, t: Transition)
    requires NoTypeTwoDeclared(env.schema) && CanonicalTransition(t) && Apply(env, mode, contract, l, o, t).Ok?
    ensures NoTypeTwo(t.globals, t.assignments)
  {
    hide Apply, TransitionId, Validated, NoTypeTwo, CanonicalEntry, CanonicalGlobal, CanonicalMetadata;
    Applied(env, mode, contract, l, o, t);
    ValidatedNoTypeTwo(env.schema, env.types, t, Context(contract, l.globals), Resolution(l.states));
  }

  lemma {:induction false} ReplayPlain(env: Env, mode: Mode, contract: Digest, l: Ledger, o: Opened, known: seq<Known>)
    requires NoTypeTwoDeclared(env.schema) && forall k :: 0 <= k < |known| ==> CanonicalTransition(known[k].transition)
    requires Replay(env, mode, contract, l, StepsOf(o, Transitions(known))).Ok?
    ensures forall k :: 0 <= k < |known| ==> NoTypeTwo(known[k].transition.globals, known[k].transition.assignments)
    decreases known
  {
    hide Apply, CanonicalTransition, NoTypeTwo;
    if known != [] {
      var t, rest := known[0].transition, known[1..];
      var ts := Transitions(known);
      assert ts[0] == t && ts[1..] == Transitions(rest);
      assert StepsOf(o, ts)[0] == Step(o, t) && StepsOf(o, ts)[1..] == StepsOf(o, ts[1..]);
      AppliedPlain(env, mode, contract, l, o, t);
      assert forall k :: 0 <= k < |rest| ==> rest[k] == known[k + 1];
      assert forall k :: 0 < k < |known| ==> known[k] == rest[k - 1];
      ReplayPlain(env, mode, contract, Apply(env, mode, contract, l, o, t).value, o, rest);
    }
  }

  lemma {:induction false} BundlesPlain(env: Env, mode: Mode, contract: Digest, bundles: seq<WitnessBundle>, r: Run)
    requires NoTypeTwoDeclared(env.schema) && RunBundles(env, mode, contract, bundles, r).Ok?
    requires forall i :: 0 <= i < |bundles| ==> CanonicalWitnessBundle(bundles[i])
    ensures forall i :: 0 <= i < |bundles| ==> PlainBundle(bundles[i])
    decreases bundles
  {
    hide Open, Replay, CanonicalTransition, NoTypeTwo;
    if bundles != [] {
      var rest := bundles[1..];
      var o := Open(env, mode.allowPrepared, contract, bundles[0]).value;
      var l := Replay(env, mode, contract, r.ledger, StepsOf(o, o.transitions)).value;
      assert CanonicalWitnessBundle(bundles[0]);
      OpenedKnown(env, mode, contract, bundles[0]);
      ReplayPlain(env, mode, contract, r.ledger, o, bundles[0].bundle.known);
      assert forall i :: 0 <= i < |rest| ==> rest[i] == bundles[i + 1];
      assert forall i :: 0 < i < |bundles| ==> bundles[i] == rest[i - 1];
      BundlesPlain(env, mode, contract, rest, Close(r, l, o));
    }
  }

  /** What NIA, CFA, IFA and UDA accept uses no type 2; so their operation ids and contract
      ids identify the operations, and their bundles merge with any that know the same operations. */
  lemma {:induction false} AcceptedIsPlain(env: Env, mode: Mode, c: Consignment)
    requires ByID(env.schema) != Some(PFA) || NoTypeTwoDeclared(env.schema)
    requires CanonicalConsignment(c) && RunAll(env, mode, c).Ok?
    ensures NoTypeTwo(c.genesis.globals, c.genesis.assignments)
    ensures forall i :: 0 <= i < |c.bundles| ==> PlainBundle(c.bundles[i])
  {
    hide GenesisId, RunBundles, Start, GenesisError, CanonicalWitnessBundle, PlainBundle, NoTypeTwo, ByID, NoTypeTwoDeclared;
    KnownSchema(env.schema, env.types, c.genesis);
    if ByID(env.schema) != Some(PFA) {
      StandardNoTypeTwo(env.schema);
    }
    GenesisIncreases(c.genesis);
    GenesisNoTypeTwo(env.schema, env.types, c.genesis);
    BundlesPlain(env, mode, GenesisId(c.genesis), c.bundles, Run(Start(c.genesis).value, map[], true));
  }

  lemma {:induction false} KnownSchema(s: Schema, types: Types, g: Genesis)
    requires GenesisError(s, types, g) == None
    ensures ByID(s).Some?
  {
    hide ByID, MetadataError, GlobalsOf, TotalsOf, GenesisScriptError;
  }

  lemma {:induction false} GenesisIncreases(g: Genesis)
    requires CanonicalGenesis(g)
    ensures Increases(g.assignments) && GlobalsIncrease(g.globals)
  {
  }
}
