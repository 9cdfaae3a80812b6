/** What one step of validation asks, check by check: of a witness, of a bundle, of an input, of a transition. */
module StepRules {
  import opened Anchor
  import opened AnchorShape
  import opened Bytes
  import opened Collections
  import opened Operations
  import opened Outputs
  import opened Safety
  import opened Schemas
  import opened SchemaTotals
  import opened Seals
  import opened Symbols
  import opened Validator
  import opened Wrappers
  import Mpc

  // ----- witnesses

  /** The id of the transaction that a witness names or embeds. */
  ghost predicate Wants(p: PubWitness, txid: Digest) {
    match p
    case Embedded(_, Some(tx)) => txid == tx.txid
    case Embedded(_, None) => false
    case Named(id) => txid == id
  }

  ghost predicate Knows(resolver: Option<Resolver>, txid: Digest, e: Evidence) {
    resolver.Some? && resolver.value.evidence(txid) == Some(e)
  }

  /** The chain has the transaction under the id, in a block or on its way into one. */
  ghost predicate OnChain(resolver: Option<Resolver>, w: Witness) {
    && Knows(resolver, w.txid, Evidence(Parsed(w.tx), w.state))
    && w.tx.txid == w.txid && (w.state == Tentative || w.state == Mined)
  }

  /** The chain says nothing against the id: no answer, or one without a state that does not contradict it. */
  ghost predicate Unheard(resolver: Option<Resolver>, txid: Digest) {
    forall e :: Knows(resolver, txid, e) ==>
      && (e.state == NoState || e.state == Prepared)
      && !e.raw.Garbage? && (e.raw.Parsed? ==> e.raw.tx.txid == txid)
  }

  /** A witness is the transaction that the chain has under its id; or, where that is allowed, the
      embedded one that the chain knows nothing of. */
  lemma {:induction false} ResolvedExactly(p: PubWitness, resolver: Option<Resolver>, allowPrepared: bool, w: Witness)
    ensures Resolved(p, resolver, allowPrepared) == Ok(w) <==>
            && Wants(p, w.txid)
            && (OnChain(resolver, w)
                || (allowPrepared && Unheard(resolver, w.txid) && p.Embedded? && p.embedded == Some(w.tx) && w.state == Prepared))
  {
    if resolver.Some? && resolver.value.evidence(w.txid).Some? {
      assert Knows(resolver, w.txid, resolver.value.evidence(w.txid).value);
    }
  }

  /** Else the error tells an archived witness and one with another id from those that are not known. */
  lemma {:induction false} UnresolvedExactly(p: PubWitness, resolver: Option<Resolver>, allowPrepared: bool)
    requires Resolved(p, resolver, allowPrepared).Err?
    ensures Resolved(p, resolver, allowPrepared).error == WitnessArchived <==>
            exists txid, e :: Wants(p, txid) && Knows(resolver, txid, e) && e.state == Archived
    ensures Resolved(p, resolver, allowPrepared).error == WitnessMismatch <==>
            exists txid, e :: Wants(p, txid) && Knows(resolver, txid, e) && e.state != Archived && e.raw.Parsed? && e.raw.tx.txid != txid
    ensures Resolved(p, resolver, allowPrepared).error in {WitnessArchived, WitnessMismatch, WitnessUnresolved}
  {
    if !(p.Embedded? && p.embedded.None?) {
      var id := if p.Embedded? then p.embedded.value.txid else p.txid;
      assert Wants(p, id);
      if resolver.Some? && resolver.value.evidence(id).Some? {
        assert Knows(resolver, id, resolver.value.evidence(id).value);
      }
    }
  }

  // ----- bundles

  /** The disclosed transition spends something, has the id that it is listed under, and some input is committed to it. */
  ghost predicate Fits(k: Known, m: seq<Commit>) {
    k.transition.inputs != [] && k.declared == TransitionId(k.transition) && exists i :: 0 <= i < |m| && m[i].op == k.declared
  }

  ghost predicate Unfit(k: Known, m: seq<Commit>, e: Operations.Error) {
    if k.transition.inputs == [] then e == InvalidTransition
    else if k.declared != TransitionId(k.transition) then e == TransitionIdMismatch
    else e == UnrelatedTransition && forall i :: 0 <= i < |m| ==> m[i].op != k.declared
  }

  lemma {:induction false} KnownExactly(known: seq<Known>, m: seq<Commit>)
    ensures KnownError(known, InputOps(m)) == None <==> forall i :: 0 <= i < |known| ==> Fits(known[i], m)
    ensures forall e :: KnownError(known, InputOps(m)) == Some(e) ==>
              exists i :: 0 <= i < |known| && Unfit(known[i], m, e) && forall j :: 0 <= j < i ==> Fits(known[j], m)
  {
    hide TransitionId;
    if known != [] {
      var k, rest := known[0], known[1..];
      KnownExactly(rest, m);
      assert forall i :: 0 <= i < |rest| ==> rest[i] == known[i + 1];
      assert forall i :: 0 < i < |known| ==> known[i] == rest[i - 1];
      assert k.declared in InputOps(m) <==> exists i :: 0 <= i < |m| && m[i].op == k.declared;
      forall e | KnownError(known, InputOps(m)) == Some(e)
        ensures exists i :: 0 <= i < |known| && Unfit(known[i], m, e) && forall j :: 0 <= j < i ==> Fits(known[j], m)
      {
        if Fits(k, m) {
          var i :| 0 <= i < |rest| && Unfit(rest[i], m, e) && forall j :: 0 <= j < i ==> Fits(rest[j], m);
          assert known[i + 1] == rest[i];
        } else {
          assert Unfit(known[0], m, e);
        }
      }
    }
  }

  /** A bundle commits when it has inputs and transitions and all of these fit; the first that does not gives the error. */
  lemma {:induction false} BundleExactly(b: Bundle)
    ensures BundleOf(b).Ok? <==> b.inputMap != [] && b.known != [] && forall i :: 0 <= i < |b.known| ==> Fits(b.known[i], b.inputMap)
    ensures b.inputMap == [] || b.known == [] ==> BundleOf(b) == Err(InvalidBundle)
    ensures b.inputMap != [] && b.known != [] && BundleOf(b).Err? ==>
              exists i :: 0 <= i < |b.known| && Unfit(b.known[i], b.inputMap, BundleOf(b).error) && forall j :: 0 <= j < i ==> Fits(b.known[j], b.inputMap)
    ensures BundleOf(b).Ok? ==>
              && BundleOf(b).value.id == BundleId(b.inputMap)
              && (forall op :: op in BundleOf(b).value.inputOps <==> exists i :: 0 <= i < |b.inputMap| && b.inputMap[i].op == op)
              && |BundleOf(b).value.transitions| == |b.known|
              && forall i :: 0 <= i < |b.known| ==> BundleOf(b).value.transitions[i] == b.known[i].transition
  {
    hide BundleId, Fits, Unfit;
    KnownExactly(b.known, b.inputMap);
  }

  /** The first output that could carry a commitment carries this one. */
  ghost predicate CommitsTo(c: Crypto, tx: Tx, dbc: DbcProof, commitment: Digest) {
    exists i :: CarrierAt(tx.outputs, i) && Carries(c, tx.outputs[i].script, dbc, commitment)
  }

  /** The bundle commits, its proof sits where the contract's number says, and the witness commits to what it convolves to. */
  ghost predicate Opens(env: Env, allowPrepared: bool, contract: Digest, wb: WitnessBundle, w: Witness, commitment: Digest) {
    && BundleOf(wb.bundle).Ok?
    && wb.mpc.position < 0x1_0000_0000 && wb.mpc.cofactor < 65536 && Sits(env.crypto, wb.mpc, contract)
    && Mpc.Convolution(env.crypto, wb.mpc, contract, BundleId(wb.bundle.inputMap)) == Ok(commitment)
    && Resolved(wb.pub, env.resolver, allowPrepared) == Ok(w)
    && CommitsTo(env.crypto, w.tx, wb.dbc, commitment)
  }

  ghost predicate OpenedAs(wb: WitnessBundle, w: Witness, o: Opened) {
    BundleOf(wb.bundle).Ok? &&
    o == Opened(BundleId(wb.bundle.inputMap), wb.bundle.inputMap, BundleOf(wb.bundle).value.inputOps, BundleOf(wb.bundle).value.transitions,
                wb.mpc, wb.dbc, w)
  }

  /** A witness bundle opens exactly when it commits, its proof sits where the contract's number says,
      its witness is resolved, and the first output of that which could carry a commitment carries this one. */
  lemma {:induction false} OpenExactly(env: Env, allowPrepared: bool, contract: Digest, wb: WitnessBundle)
    ensures Open(env, allowPrepared, contract, wb).Ok? <==> exists w, commitment :: Opens(env, allowPrepared, contract, wb, w, commitment)
    ensures forall o :: Open(env, allowPrepared, contract, wb) == Ok(o) ==> Resolved(wb.pub, env.resolver, allowPrepared) == Ok(o.closer) && OpenedAs(wb, o.closer, o)
  {
    hide BundleOf, BundleId, Mpc.Convolution, Resolved, VerifyDBC, CommitsTo, Sits;
    BundleExactly(wb.bundle);
    var w := Resolved(wb.pub, env.resolver, allowPrepared);
    var convolved := Mpc.Convolution(env.crypto, wb.mpc, contract, BundleId(wb.bundle.inputMap));
    if wb.mpc.cofactor < 65536 {
      ConvolvesExactly(env.crypto, wb.mpc, contract, BundleId(wb.bundle.inputMap));
    }
    if w.Ok? && convolved.Ok? {
      CommitsExactly(env.crypto, w.value.tx, wb.dbc, convolved.value);
      if Open(env, allowPrepared, contract, wb).Ok? {
        assert Opens(env, allowPrepared, contract, wb, w.value, convolved.value);
      }
    }
  }

  lemma {:induction false} CommitsExactly(c: Crypto, tx: Tx, dbc: DbcProof, commitment: Digest)
    ensures VerifyDBC(c, tx, dbc, commitment).Ok? <==> CommitsTo(c, tx, dbc, commitment)
  {
    AcceptedCarrier(c, tx, dbc, commitment);
  }

  // ----- inputs

  ghost predicate Committed(m: seq<Commit>, input: InputRef, op: Digest) {
    exists i :: 0 <= i < |m| && m[i].input == input && m[i].op == op
  }

  ghost predicate SpendsAt(tx: Tx, at: Outpoint) {
    exists i :: 0 <= i < |tx.spends| && tx.spends[i] == at
  }

  ghost predicate Present(resolver: Option<Resolver>, at: Outpoint) {
    resolver.Some? && resolver.value.outpoint(at).Some? && resolver.value.outpoint(at).value.known && resolver.value.outpoint(at).value.present
  }

  /** The chain has the output, and if it is spent, `txid` spends it. */
  ghost predicate FreeFor(resolver: Option<Resolver>, at: Outpoint, txid: Digest) {
    Present(resolver, at) && var answer := resolver.value.outpoint(at).value; answer.spent ==> answer.spender == Some(txid)
  }

  /** A prepared witness outside of history reports must still be able to spend. */
  ghost predicate Asks(mode: Mode, o: Opened) {
    o.closer.state == Prepared && !(mode.historyOnly && mode.collecting)
  }

  ghost predicate MaySpend(env: Env, mode: Mode, l: Ledger, o: Opened, op: Digest, input: InputRef) {
    && Committed(o.inputMap, input, op)
    && input !in l.consumed && input in l.states
    && SpendsAt(o.closer.tx, l.states[input].outpoint)
    && (Asks(mode, o) ==> FreeFor(env.resolver, l.states[input].outpoint, o.closer.txid))
  }

  /** The first check that fails. */
  ghost predicate MayNotSpend(env: Env, mode: Mode, l: Ledger, o: Opened, op: Digest, input: InputRef, e: Failure) {
    if !Committed(o.inputMap, input, op) then e == InputMapMismatch
    else if input in l.consumed then e == DuplicateStateSpend
    else if input !in l.states then e == Refused(Unresolved)
    else if !SpendsAt(o.closer.tx, l.states[input].outpoint) then e == SealNotClosed
    else
      && Asks(mode, o) && !FreeFor(env.resolver, l.states[input].outpoint, o.closer.txid)
      && e == if Present(env.resolver, l.states[input].outpoint) then OutpointSpend else OutpointUnknown
  }

  /** An input passes when its bundle commits it to the operation, it is live, and the witness
      closes its seal and may spend it; the first of these checks that fails gives the error. */
  lemma {:induction false} InputExactly(env: Env, mode: Mode, l: Ledger, o: Opened, op: Digest, input: InputRef)
    ensures InputError(env, mode, l, o, op, input) == None <==> MaySpend(env, mode, l, o, op, input)
    ensures forall e :: InputError(env, mode, l, o, op, input) == Some(e) <==> MayNotSpend(env, mode, l, o, op, input, e)
  {
    assert Commit(input, op) in o.inputMap <==> Committed(o.inputMap, input, op) by {
      if Committed(o.inputMap, input, op) {
        var i :| 0 <= i < |o.inputMap| && o.inputMap[i].input == input && o.inputMap[i].op == op;
        assert o.inputMap[i] == Commit(input, op);
      }
    }
    if input in l.states {
      assert l.states[input].outpoint in o.closer.tx.spends <==> SpendsAt(o.closer.tx, l.states[input].outpoint);
    }
  }

  /** Inputs are checked in order, and the first that does not pass decides. */
  lemma {:induction false} InputsExactly(env: Env, mode: Mode, l: Ledger, o: Opened, op: Digest, inputs: seq<InputRef>)
    ensures InputsError(env, mode, l, o, op, inputs) == None <==> forall i :: 0 <= i < |inputs| ==> MaySpend(env, mode, l, o, op, inputs[i])
    ensures forall e :: InputsError(env, mode, l, o, op, inputs) == Some(e) ==>
              exists i :: 0 <= i < |inputs| && MayNotSpend(env, mode, l, o, op, inputs[i], e)
                          && forall j :: 0 <= j < i ==> MaySpend(env, mode, l, o, op, inputs[j])
  {
    hide InputError, MaySpend, MayNotSpend;
    if inputs != [] {
      var rest := inputs[1..];
      InputExactly(env, mode, l, o, op, inputs[0]);
      InputsExactly(env, mode, l, o, op, rest);
      assert forall i :: 0 <= i < |rest| ==> rest[i] == inputs[i + 1];
      assert forall i :: 0 < i < |inputs| ==> inputs[i] == rest[i - 1];
      forall e | InputsError(env, mode, l, o, op, inputs) == Some(e)
        ensures exists i :: 0 <= i < |inputs| && MayNotSpend(env, mode, l, o, op, inputs[i], e)
                            && forall j :: 0 <= j < i ==> MaySpend(env, mode, l, o, op, inputs[j])
      {
        if MaySpend(env, mode, l, o, op, inputs[0]) {
          var i :| 0 <= i < |rest| && MayNotSpend(env, mode, l, o, op, rest[i], e)
                   && forall j :: 0 <= j < i ==> MaySpend(env, mode, l, o, op, rest[j]);
          assert inputs[i + 1] == rest[i];
        } else {
          assert MayNotSpend(env, mode, l, o, op, inputs[0], e);
        }
      }
    }
  }

  // ----- transitions

  /** Input `i` is the first that may not be spent. */
  ghost predicate FirstBad(env: Env, mode: Mode, l: Ledger, o: Opened, t: Transition, i: int, e: Failure) {
    && 0 <= i < |t.inputs| && MayNotSpend(env, mode, l, o, TransitionId(t), t.inputs[i], e)
    && forall j :: 0 <= j < i ==> MaySpend(env, mode, l, o, TransitionId(t), t.inputs[j])
  }

  /** The error of the first part that fails: no inputs, an input, the state, a seal. */
  ghost predicate Rejects(env: Env, mode: Mode, contract: Digest, l: Ledger, o: Opened, t: Transition, e: Failure) {
    var checked := Validated(env.schema, env.types, t, Context(contract, l.globals), Resolution(l.states));
    if t.inputs == [] then e == Uncommitted(InvalidTransition)
    else if forall i :: 0 <= i < |t.inputs| ==> MaySpend(env, mode, l, o, TransitionId(t), t.inputs[i]) then
      e == if checked.Err? then Refused(checked.error) else SealNotClosed
    else exists i :: FirstBad(env, mode, l, o, t, i, e)
  }

  /** In a history that is safe so far a transition is accepted exactly when it has inputs, each of
      which may be spent, its state obeys the schema, and every seal that it discloses can be closed;
      the first of these that fails gives the error. */
  lemma {:induction false} ApplyExactly(env: Env, mode: Mode, g: Genesis, l: Ledger, o: Opened, t: Transition)
    requires Safe(g, l) && CanonicalTransition(t)
    ensures Apply(env, mode, GenesisId(g), l, o, t).Ok? <==>
            && t.inputs != []
            && (forall i :: 0 <= i < |t.inputs| ==> MaySpend(env, mode, l, o, TransitionId(t), t.inputs[i]))
            && Validated(env.schema, env.types, t, Context(GenesisId(g), l.globals), Resolution(l.states)).Ok?
            && AllClosable(t.assignments, o.closer.txid)
    ensures Apply(env, mode, GenesisId(g), l, o, t).Err? ==> Rejects(env, mode, GenesisId(g), l, o, t, Apply(env, mode, GenesisId(g), l, o, t).error)
  {
    hide TransitionId, GenesisId, CanonicalTransition, Safe, Validated, InputsError, MaySpend, MayNotSpend, Apply, AllClosable;
    InputsExactly(env, mode, l, o, TransitionId(t), t.inputs);
    if Checks(env, mode, GenesisId(g), l, o, t) {
      SealsDecide(env, mode, g, l, o, t);
    } else {
      Unchecked(env, mode, GenesisId(g), l, o, t);
      var e := InputsError(env, mode, l, o, TransitionId(t), t.inputs);
      if t.inputs != [] && e.Some? {
        var i :| 0 <= i < |t.inputs| && MayNotSpend(env, mode, l, o, TransitionId(t), t.inputs[i], e.value)
                 && forall j :: 0 <= j < i ==> MaySpend(env, mode, l, o, TransitionId(t), t.inputs[j]);
        assert FirstBad(env, mode, l, o, t, i, e.value);
      }
    }
  }

  lemma {:induction false} Unchecked(env: Env, mode: Mode, contract: Digest, l: Ledger, o: Opened, t: Transition)
    requires !Checks(env, mode, contract, l, o, t)
    ensures Apply(env, mode, contract, l, o, t).Err?
    ensures Apply(env, mode, contract, l, o, t).error ==
            if t.inputs == [] then Uncommitted(InvalidTransition)
            else if InputsError(env, mode, l, o, TransitionId(t), t.inputs).Some? then InputsError(env, mode, l, o, TransitionId(t), t.inputs).value
            else Refused(Validated(env.schema, env.types, t, Context(contract, l.globals), Resolution(l.states)).error)
  {
    hide TransitionId, Validated, InputsError, Register;
  }

  // ----- runs

  /** Every operation that the bundle commits an input to is disclosed. */
  ghost predicate FullyDisclosed(b: Bundle) {
    forall i :: 0 <= i < |b.inputMap| ==> exists k :: 0 <= k < |b.known| && b.known[k].declared == b.inputMap[i].op
  }

  ghost predicate AllDisclosed(bundles: seq<WitnessBundle>) {
    forall i :: 0 <= i < |bundles| ==> FullyDisclosed(bundles[i].bundle)
  }

  lemma {:induction false} AllDisclosedTail(bundles: seq<WitnessBundle>)
    requires bundles != []
    ensures AllDisclosed(bundles) <==> FullyDisclosed(bundles[0].bundle) && AllDisclosed(bundles[1..])
  {
    hide FullyDisclosed;
    var rest := bundles[1..];
    assert forall i :: 0 <= i < |rest| ==> rest[i] == bundles[i + 1];
    assert forall i :: 0 < i < |bundles| ==> bundles[i] == rest[i - 1];
  }

  lemma {:induction false} NothingRun(env: Env, mode: Mode, contract: Digest, r: Run)
    ensures RunBundles(env, mode, contract, [], r) == Ok(r)
  {
  }

  lemma {:induction false} SameSize<T>(a: set<T>, b: set<T>)
    requires a <= b
    ensures |a| == |b| <==> a == b
  {
    SubsetSize(a, b);
  }

  lemma {:induction false} IdsAre(b: Bundle, op: Digest)
    requires BundleOf(b).Ok?
    ensures op in Ids(BundleOf(b).value.transitions) <==> exists k :: 0 <= k < |b.known| && b.known[k].declared == op
    ensures op in Ids(BundleOf(b).value.transitions) ==> op in BundleOf(b).value.inputOps
  {
    hide BundleOf, TransitionId;
    BundleExactly(b);
    var ts := BundleOf(b).value.transitions;
    if k :| 0 <= k < |b.known| && b.known[k].declared == op {
      assert Fits(b.known[k], b.inputMap) && ts[k] in ts;
    }
    if op in Ids(ts) {
      var t :| t in ts && TransitionId(t) == op;
      var k :| 0 <= k < |ts| && ts[k] == t;
      assert Fits(b.known[k], b.inputMap);
    }
  }

  /** Counting the operations of an accepted bundle tells whether all are disclosed. */
  lemma {:induction false} CountTells(b: Bundle)
    requires BundleOf(b).Ok?
    ensures |Ids(BundleOf(b).value.transitions)| == |BundleOf(b).value.inputOps| <==> FullyDisclosed(b)
  {
    hide BundleOf, TransitionId, Ids, Fits;
    BundleExactly(b);
    var ids, ops := Ids(BundleOf(b).value.transitions), BundleOf(b).value.inputOps;
    forall op ensures op in ids <==> exists k :: 0 <= k < |b.known| && b.known[k].declared == op
              ensures op in ids ==> op in ops {
      IdsAre(b, op);
    }
    SameSize(ids, ops);
    if ids == ops {
      forall i | 0 <= i < |b.inputMap| ensures exists k :: 0 <= k < |b.known| && b.known[k].declared == b.inputMap[i].op {
        assert b.inputMap[i].op in ops;
      }
    }
    if FullyDisclosed(b) {
      forall op | op in ops ensures op in ids {
        var i :| 0 <= i < |b.inputMap| && b.inputMap[i].op == op;
        var k :| 0 <= k < |b.known| && b.known[k].declared == b.inputMap[i].op;
        assert b.known[k].declared == op;
      }
    }
  }

  /** The first bundle of a run. */
  lemma {:induction false} RunFirst(env: Env, mode: Mode, contract: Digest, bundles: seq<WitnessBundle>, r: Run) returns (next: Run, w: Witness)
    requires bundles != [] && RunBundles(env, mode, contract, bundles, r).Ok?
    ensures RunBundles(env, mode, contract, bundles[1..], next) == RunBundles(env, mode, contract, bundles, r)
    ensures BundleOf(bundles[0].bundle).Ok? && Resolved(bundles[0].pub, env.resolver, mode.allowPrepared) == Ok(w)
    ensures var b := BundleOf(bundles[0].bundle).value; next.complete == (r.complete && |Ids(b.transitions)| == |b.inputOps|)
    ensures next.prepared == if w.state == Prepared then r.prepared[w.txid := w.tx] else r.prepared
  {
    hide Open, Replay, Ids, BundleOf, Resolved;
    var o := Open(env, mode.allowPrepared, contract, bundles[0]).value;
    var l := Replay(env, mode, contract, r.ledger, StepsOf(o, o.transitions)).value;
    OpenExactly(env, mode.allowPrepared, contract, bundles[0]);
    next, w := Close(r, l, o), o.closer;
  }

  /** The graph of a run is complete exactly when every bundle discloses all operations it commits to. */
  lemma {:induction false} CompleteExactly(env: Env, mode: Mode, contract: Digest, bundles: seq<WitnessBundle>, r: Run)
    requires RunBundles(env, mode, contract, bundles, r).Ok?
    ensures RunBundles(env, mode, contract, bundles, r).value.complete <==>
            r.complete && AllDisclosed(bundles)
    decreases bundles
  {
    if bundles != [] {
      hide RunBundles, FullyDisclosed, AllDisclosed, Ids, BundleOf, Resolved;
      var rest := bundles[1..];
      var next, _ := RunFirst(env, mode, contract, bundles, r);
      CountTells(bundles[0].bundle);
      CompleteExactly(env, mode, contract, rest, next);
      AllDisclosedTail(bundles);
    } else {
      hide RunBundles;
      NothingRun(env, mode, contract, r);
    }
  }

  /** Bundle `i` is the last one with that prepared witness. */
  ghost predicate PreparedAt(env: Env, mode: Mode, bundles: seq<WitnessBundle>, i: int, tx: Tx, txid: Digest) {
    && 0 <= i < |bundles| && Resolved(bundles[i].pub, env.resolver, mode.allowPrepared) == Ok(Witness(tx, txid, Prepared))
    && forall j :: i < j < |bundles| ==> !PreparedUnder(env, mode, bundles[j], txid)
  }

  ghost predicate PreparedUnder(env: Env, mode: Mode, wb: WitnessBundle, txid: Digest) {
    exists tx :: Resolved(wb.pub, env.resolver, mode.allowPrepared) == Ok(Witness(tx, txid, Prepared))
  }

  ghost predicate NonePrepared(env: Env, mode: Mode, bundles: seq<WitnessBundle>, txid: Digest) {
    forall i :: 0 <= i < |bundles| ==> !PreparedUnder(env, mode, bundles[i], txid)
  }

  lemma {:induction false} PreparedCons(env: Env, mode: Mode, bundles: seq<WitnessBundle>, tx: Tx, txid: Digest)
    requires bundles != []
    ensures (exists i :: PreparedAt(env, mode, bundles, i, tx, txid)) <==>
            (exists i :: PreparedAt(env, mode, bundles[1..], i, tx, txid))
            || (NonePrepared(env, mode, bundles[1..], txid)
                && Resolved(bundles[0].pub, env.resolver, mode.allowPrepared) == Ok(Witness(tx, txid, Prepared)))
    ensures NonePrepared(env, mode, bundles, txid) <==>
            !PreparedUnder(env, mode, bundles[0], txid) && NonePrepared(env, mode, bundles[1..], txid)
  {
    hide Resolved, PreparedUnder;
    var rest := bundles[1..];
    assert forall i :: 0 <= i < |rest| ==> rest[i] == bundles[i + 1];
    assert forall i :: 0 < i < |bundles| ==> bundles[i] == rest[i - 1];
    if i :| PreparedAt(env, mode, rest, i, tx, txid) {
      assert PreparedAt(env, mode, bundles, i + 1, tx, txid);
    }
    if i :| PreparedAt(env, mode, bundles, i, tx, txid) {
      if i > 0 {
        assert PreparedAt(env, mode, rest, i - 1, tx, txid);
      }
    }
    if NonePrepared(env, mode, rest, txid) && Resolved(bundles[0].pub, env.resolver, mode.allowPrepared) == Ok(Witness(tx, txid, Prepared)) {
      assert PreparedAt(env, mode, bundles, 0, tx, txid);
    }
  }

  /** The prepared transactions of a run are those of its bundles' prepared witnesses, the last one under each id. */
  lemma {:induction false} PreparedExactly(env: Env, mode: Mode, contract: Digest, bundles: seq<WitnessBundle>, r: Run, txid: Digest, tx: Tx)
    requires RunBundles(env, mode, contract, bundles, r).Ok?
    ensures var m := RunBundles(env, mode, contract, bundles, r).value;
            txid in m.prepared && m.prepared[txid] == tx <==>
            (exists i :: PreparedAt(env, mode, bundles, i, tx, txid))
            || (NonePrepared(env, mode, bundles, txid) && txid in r.prepared && r.prepared[txid] == tx)
    decreases bundles
  {
    if bundles != [] {
      hide RunBundles, Resolved, Ids, BundleOf, PreparedAt, NonePrepared;
      var next, w := RunFirst(env, mode, contract, bundles, r);
      PreparedExactly(env, mode, contract, bundles[1..], next, txid, tx);
      PreparedCons(env, mode, bundles, tx, txid);
      assert w == Witness(w.tx, w.txid, w.state);
      assert PreparedUnder(env, mode, bundles[0], txid) <==> w.txid == txid && w.state == Prepared;
    }
  }

  /** The history of a container runs only after an accepted genesis whose seals can be closed; then its graph is complete
      exactly when all committed operations are disclosed, and its prepared transactions are those of its prepared witnesses. */
  lemma {:induction false} RunTells(env: Env, mode: Mode, c: Consignment, txid: Digest, tx: Tx)
    requires CanonicalGenesis(c.genesis) && RunAll(env, mode, c).Ok?
    ensures GenesisError(env.schema, env.types, c.genesis) == None && AllClosable(c.genesis.assignments, ZERO)
    ensures var run := RunAll(env, mode, c).value;
            && (run.complete <==> AllDisclosed(c.bundles))
            && (txid in run.prepared && run.prepared[txid] == tx <==> exists i :: PreparedAt(env, mode, c.bundles, i, tx, txid))
  {
    hide GenesisId, GenesisError, Start, RunBundles, AllDisclosed, AllClosable, PreparedAt, CanonicalGenesis;
    StartSeals(c.genesis);
    var start := Run(Start(c.genesis).value, map[], true);
    CompleteExactly(env, mode, GenesisId(c.genesis), c.bundles, start);
    PreparedExactly(env, mode, GenesisId(c.genesis), c.bundles, start, txid, tx);
  }
}
