/** What running a history records, and where its outputs go. */
module HistoryFacts {
  import opened Agreement
  import opened Anchor
  import opened Balance
  import opened Bytes
  import opened Catalog
  import opened Collections
  import opened Commitments
  import opened Conservation
  import opened Merge
  import opened Operations
  import opened Outputs
  import opened Redisclosure
  import opened Safety
  import opened SchemaAccepts
  import opened Schemas
  import opened SchemaTotals
  import opened Symbols
  import opened Validator
  import opened Wrappers
  import Mpc

  // ----- outputs stay until they are consumed

  /** The output is live in this place, or was consumed. */
  ghost predicate Held(l: Ledger, ref: InputRef, p: Placed) {
    (ref in l.states && l.states[ref] == p) || ref in l.consumed
  }

  /** What is live in the first ledger is held by the second. */
  ghost predicate HeldBy(l: Ledger, m: Ledger) {
    forall r :: r in l.states ==> Held(m, r, l.states[r])
  }

  /** Later in the run. */
  ghost predicate Later(l: Ledger, m: Ledger) {
    l.consumed <= m.consumed && HeldBy(l, m)
  }

  lemma {:induction false} LaterStill(l: Ledger, m: Ledger, n: Ledger)
    requires Later(l, m) && Later(m, n)
    ensures Later(l, n)
  {
  }

  lemma {:induction false} HeldLater(l: Ledger, m: Ledger, ref: InputRef, p: Placed)
    requires Held(l, ref, p) && Later(l, m)
    ensures Held(m, ref, p)
  {
  }

  /** Every output that the transition discloses is held where its seal places it. */
  ghost predicate HoldsAll(l: Ledger, t: Transition, txid: Digest) {
    forall ty: nat, no: nat, p :: PutsAt(t, ty, no, txid, p) ==> Held(l, InputRef(TransitionId(t), ty, no), p)
  }

  ghost predicate PutsAt(t: Transition, ty: nat, no: nat, txid: Digest, p: Placed) {
    IsRevealed(t.assignments, ty, no) && Placing(Of(t.assignments, ty)[no].state, Of(t.assignments, ty)[no].seal, txid) == Ok(p)
  }

  lemma {:induction false} HoldsAllLater(l: Ledger, m: Ledger, t: Transition, txid: Digest)
    requires HoldsAll(l, t, txid) && Later(l, m)
    ensures HoldsAll(m, t, txid)
  {
    hide TransitionId, PutsAt, Held;
    forall ty: nat, no: nat, p | PutsAt(t, ty, no, txid, p) ensures Held(m, InputRef(TransitionId(t), ty, no), p) {
      HeldLater(l, m, InputRef(TransitionId(t), ty, no), p);
    }
  }

  lemma {:induction false} StepHolds(env: Env, mode: Mode, g: Genesis, l: Ledger, o: Opened, t: Transition)
    requires Safe(g, l) && CanonicalTransition(t) && Apply(env, mode, GenesisId(g), l, o, t).Ok?
    ensures var m := Apply(env, mode, GenesisId(g), l, o, t).value;
            Safe(g, m) && Later(l, m) && HoldsAll(m, t, o.closer.txid)
  {
    hide GenesisId, TransitionId, Apply, Safe, CanonicalTransition, Placing, Of;
    KeepsSafe(env, mode, g, l, o, t);
    Applied(env, mode, GenesisId(g), l, o, t);
    FreshId(env, mode, g, l, o, t);
    NothingUnderFreshId(g, l, TransitionId(t));
    var m := Apply(env, mode, GenesisId(g), l, o, t).value;
    forall r | r in l.states ensures Held(m, r, l.states[r]) {
      LiveAfter(env, mode, g, l, o, t, r);
    }
    forall ty: nat, no: nat, p | PutsAt(t, ty, no, o.closer.txid, p) ensures Held(m, InputRef(TransitionId(t), ty, no), p) {
      LiveAfter(env, mode, g, l, o, t, InputRef(TransitionId(t), ty, no));
    }
  }

  // ----- what a run records

  ghost predicate HasEvent(log: seq<Event>, o: Opened, t: Transition) {
    exists i :: 0 <= i < |log| && IsEvent(log[i], o, t)
  }

  ghost predicate IsEvent(e: Event, o: Opened, t: Transition) {
    e.host == o && e.transition == t && e.op == TransitionId(t)
  }

  ghost predicate Extends(more: seq<Event>, log: seq<Event>) {
    |log| <= |more| && forall i :: 0 <= i < |log| ==> more[i] == log[i]
  }

  lemma {:induction false} HasEventLater(log: seq<Event>, more: seq<Event>, o: Opened, t: Transition)
    requires HasEvent(log, o, t) && Extends(more, log)
    ensures HasEvent(more, o, t)
  {
    hide IsEvent;
    var i :| 0 <= i < |log| && IsEvent(log[i], o, t);
    assert IsEvent(more[i], o, t);
  }

  /** After the transitions of a bundle: they are recorded, their outputs are held,
      and nothing else was recorded. */
  ghost predicate After(l: Ledger, m: Ledger, o: Opened, known: seq<Known>) {
    && Later(l, m) && Extends(m.log, l.log)
    && (forall i :: |l.log| <= i < |m.log| ==> m.log[i].host == o)
    && (forall k :: 0 <= k < |known| ==> HasEvent(m.log, o, known[k].transition) && HoldsAll(m, known[k].transition, o.closer.txid))
  }

  lemma {:induction false} StepRecords(env: Env, mode: Mode, g: Genesis, l: Ledger, o: Opened, t: Transition)
    requires Safe(g, l) && CanonicalTransition(t) && Apply(env, mode, GenesisId(g), l, o, t).Ok?
    ensures var m := Apply(env, mode, GenesisId(g), l, o, t).value;
            && Safe(g, m) && Later(l, m) && HoldsAll(m, t, o.closer.txid) && HasEvent(m.log, o, t)
            && Extends(m.log, l.log) && (forall i :: |l.log| <= i < |m.log| ==> m.log[i].host == o)
  {
    hide GenesisId, TransitionId, Apply, Safe, CanonicalTransition, Later, HoldsAll;
    StepHolds(env, mode, g, l, o, t);
    Applied(env, mode, GenesisId(g), l, o, t);
    var m := Apply(env, mode, GenesisId(g), l, o, t).value;
    assert IsEvent(m.log[|l.log|], o, t);
  }

  lemma {:induction false} AfterCons(l: Ledger, n: Ledger, m: Ledger, o: Opened, known: seq<Known>)
    requires known != [] && Later(l, n) && Extends(n.log, l.log) && (forall i :: |l.log| <= i < |n.log| ==> n.log[i].host == o)
    requires HasEvent(n.log, o, known[0].transition) && HoldsAll(n, known[0].transition, o.closer.txid)
    requires After(n, m, o, known[1..])
    ensures After(l, m, o, known)
  {
    hide HasEvent, HoldsAll, Later;
    LaterStill(l, n, m);
    HasEventLater(n.log, m.log, o, known[0].transition);
    HoldsAllLater(n, m, known[0].transition, o.closer.txid);
    forall i | |l.log| <= i < |m.log| ensures m.log[i].host == o {
      if i < |n.log| { assert m.log[i] == n.log[i]; }
    }
    forall k | 0 <= k < |known| ensures HasEvent(m.log, o, known[k].transition) && HoldsAll(m, known[k].transition, o.closer.txid) {
      if k > 0 { assert known[k] == known[1..][k - 1]; }
    }
  }

  lemma {:induction false} AfterNothing(l: Ledger, o: Opened)
    ensures After(l, l, o, [])
  {
  }

  lemma {:induction false} BundleRecords(env: Env, mode: Mode, g: Genesis, l: Ledger, o: Opened, known: seq<Known>)
    requires Safe(g, l) && forall k :: 0 <= k < |known| ==> CanonicalTransition(known[k].transition)
    requires Replay(env, mode, GenesisId(g), l, StepsOf(o, Transitions(known))).Ok?
    ensures var m := Replay(env, mode, GenesisId(g), l, StepsOf(o, Transitions(known))).value;
            Safe(g, m) && After(l, m, o, known)
    decreases known
  {
    hide Apply, Replay, StepsOf, Transitions, Safe, GenesisId, CanonicalTransition, After, HasEvent, HoldsAll, Later, Extends;
    ReplayKnown(env, mode, GenesisId(g), l, o, known);
    if known == [] {
      AfterNothing(l, o);
    } else {
      var next := Apply(env, mode, GenesisId(g), l, o, known[0].transition).value;
      StepRecords(env, mode, g, l, o, known[0].transition);
      assert forall k :: 0 <= k < |known[1..]| ==> known[1..][k] == known[k + 1];
      BundleRecords(env, mode, g, next, o, known[1..]);
      AfterCons(l, next, Replay(env, mode, GenesisId(g), l, StepsOf(o, Transitions(known))).value, o, known);
    }
  }

  /** After the bundles of a run. */
  ghost predicate AfterAll(env: Env, contract: Digest, l: Ledger, m: Ledger, bundles: seq<WitnessBundle>) {
    && Later(l, m) && Extends(m.log, l.log)
    && (forall i :: |l.log| <= i < |m.log| ==> HostedBy(env, contract, m.log[i].host, bundles))
    && (forall p :: 0 <= p < |bundles| ==> RanBundle(env, contract, m, bundles[p]))
  }

  ghost predicate HostedBy(env: Env, contract: Digest, o: Opened, bundles: seq<WitnessBundle>) {
    exists p :: 0 <= p < |bundles| && Open(env, false, contract, bundles[p]) == Ok(o)
  }

  /** The bundle opens, its transitions are recorded and their outputs are held. */
  ghost predicate RanBundle(env: Env, contract: Digest, m: Ledger, wb: WitnessBundle) {
    && Open(env, false, contract, wb).Ok?
    && forall k :: 0 <= k < |wb.bundle.known| ==>
         && HasEvent(m.log, Open(env, false, contract, wb).value, wb.bundle.known[k].transition)
         && HoldsAll(m, wb.bundle.known[k].transition, TxidOf(wb.pub))
  }

  lemma {:induction false} RanLater(env: Env, contract: Digest, l: Ledger, m: Ledger, wb: WitnessBundle)
    requires RanBundle(env, contract, l, wb) && Later(l, m) && Extends(m.log, l.log)
    ensures RanBundle(env, contract, m, wb)
  {
    hide HasEvent, HoldsAll, Open, Later, Extends;
    var o := Open(env, false, contract, wb).value;
    forall k | 0 <= k < |wb.bundle.known|
      ensures HasEvent(m.log, o, wb.bundle.known[k].transition) && HoldsAll(m, wb.bundle.known[k].transition, TxidOf(wb.pub))
    {
      HasEventLater(l.log, m.log, o, wb.bundle.known[k].transition);
      HoldsAllLater(l, m, wb.bundle.known[k].transition, TxidOf(wb.pub));
    }
  }

  lemma {:induction false} AfterAllCons(env: Env, contract: Digest, l: Ledger, n: Ledger, m: Ledger, bundles: seq<WitnessBundle>)
    requires bundles != [] && Open(env, false, contract, bundles[0]).Ok?
    requires After(l, n, Open(env, false, contract, bundles[0]).value, bundles[0].bundle.known)
    requires AfterAll(env, contract, n, m, bundles[1..])
    ensures AfterAll(env, contract, l, m, bundles)
  {
    hide HasEvent, HoldsAll, Open, Later, RanBundle;
    var o := Open(env, false, contract, bundles[0]).value;
    LaterStill(l, n, m);
    OpensUnder(env, contract, bundles[0]);
    assert RanBundle(env, contract, n, bundles[0]) by { RanFirst(env, contract, l, n, bundles[0]); }
    RanLater(env, contract, n, m, bundles[0]);
    forall i | |l.log| <= i < |m.log| ensures HostedBy(env, contract, m.log[i].host, bundles) {
      if i < |n.log| {
        assert m.log[i] == n.log[i] && Open(env, false, contract, bundles[0]) == Ok(m.log[i].host);
      } else {
        var p :| 0 <= p < |bundles[1..]| && Open(env, false, contract, bundles[1..][p]) == Ok(m.log[i].host);
        assert bundles[p + 1] == bundles[1..][p];
      }
    }
    forall p | 0 <= p < |bundles| ensures RanBundle(env, contract, m, bundles[p]) {
      if p > 0 { assert bundles[p] == bundles[1..][p - 1]; }
    }
  }

  lemma {:induction false} RanFirst(env: Env, contract: Digest, l: Ledger, n: Ledger, wb: WitnessBundle)
    requires Open(env, false, contract, wb).Ok? && After(l, n, Open(env, false, contract, wb).value, wb.bundle.known)
    ensures RanBundle(env, contract, n, wb)
  {
    hide HasEvent, HoldsAll, Open, Later;
    OpensUnder(env, contract, wb);
  }

  lemma {:induction false} BundlesRecord(env: Env, mode: Mode, g: Genesis, bundles: seq<WitnessBundle>, r: Run)
    requires !mode.allowPrepared && Safe(g, r.ledger) && forall p :: 0 <= p < |bundles| ==> CanonicalWitnessBundle(bundles[p])
    requires RunBundles(env, mode, GenesisId(g), bundles, r).Ok?
    ensures var m := RunBundles(env, mode, GenesisId(g), bundles, r).value.ledger;
            Safe(g, m) && AfterAll(env, GenesisId(g), r.ledger, m, bundles)
    decreases bundles
  {
    hide Open, Replay, Safe, GenesisId, CanonicalTransition, After, HasEvent, HoldsAll, RanBundle, HostedBy;
    if bundles != [] {
      var contract := GenesisId(g);
      var o := Open(env, false, contract, bundles[0]).value;
      assert CanonicalWitnessBundle(bundles[0]);
      OpensUnder(env, contract, bundles[0]);
      var l := Replay(env, mode, contract, r.ledger, StepsOf(o, o.transitions)).value;
      BundleRecords(env, mode, g, r.ledger, o, bundles[0].bundle.known);
      assert forall p :: 0 <= p < |bundles[1..]| ==> bundles[1..][p] == bundles[p + 1];
      BundlesRecord(env, mode, g, bundles[1..], Close(r, l, o));
      AfterAllCons(env, contract, r.ledger, l, RunBundles(env, mode, contract, bundles, r).value.ledger, bundles);
    }
  }

  // ----- where live outputs come from

  /** A live output was live before, or is disclosed by one of the transitions. */
  ghost predicate CameFrom(l: Ledger, m: Ledger, known: seq<Known>, txid: Digest) {
    forall r :: r in m.states ==> (r in l.states && l.states[r] == m.states[r]) || ByKnown(known, r, txid, m.states[r])
  }

  ghost predicate ByKnown(known: seq<Known>, r: InputRef, txid: Digest, p: Placed) {
    exists k :: 0 <= k < |known| && PutBy(known[k], r, txid, p)
  }

  ghost predicate PutBy(k: Known, r: InputRef, txid: Digest, p: Placed) {
    IdOf(k) == r.op && PutsAt(k.transition, r.ty, r.no, txid, p)
  }

  lemma {:induction false} BundleLeaves(env: Env, mode: Mode, g: Genesis, l: Ledger, o: Opened, known: seq<Known>)
    requires Safe(g, l) && forall k :: 0 <= k < |known| ==> CanonicalTransition(known[k].transition)
    requires Replay(env, mode, GenesisId(g), l, StepsOf(o, Transitions(known))).Ok?
    ensures CameFrom(l, Replay(env, mode, GenesisId(g), l, StepsOf(o, Transitions(known))).value, known, o.closer.txid)
    decreases known
  {
    hide Apply, Replay, StepsOf, Transitions, Safe, GenesisId, CanonicalTransition, PutBy;
    ReplayKnown(env, mode, GenesisId(g), l, o, known);
    if known != [] {
      var next := Apply(env, mode, GenesisId(g), l, o, known[0].transition).value;
      KeepsSafe(env, mode, g, l, o, known[0].transition);
      var rest := known[1..];
      assert forall k :: 0 <= k < |rest| ==> rest[k] == known[k + 1];
      BundleLeaves(env, mode, g, next, o, rest);
      var m := Replay(env, mode, GenesisId(g), l, StepsOf(o, Transitions(known))).value;
      forall r | r in m.states ensures (r in l.states && l.states[r] == m.states[r]) || ByKnown(known, r, o.closer.txid, m.states[r]) {
        if ByKnown(rest, r, o.closer.txid, m.states[r]) {
          var k :| 0 <= k < |rest| && PutBy(rest[k], r, o.closer.txid, m.states[r]);
          assert PutBy(known[k + 1], r, o.closer.txid, m.states[r]);
        } else {
          StepLeaves(env, mode, g, l, o, known[0], r);
          if !(r in l.states && l.states[r] == m.states[r]) { assert PutBy(known[0], r, o.closer.txid, m.states[r]); }
        }
      }
    }
  }

  lemma {:induction false} StepLeaves(env: Env, mode: Mode, g: Genesis, l: Ledger, o: Opened, k: Known, r: InputRef)
    requires Safe(g, l) && CanonicalTransition(k.transition) && Apply(env, mode, GenesisId(g), l, o, k.transition).Ok?
    requires r in Apply(env, mode, GenesisId(g), l, o, k.transition).value.states
    ensures var m := Apply(env, mode, GenesisId(g), l, o, k.transition).value;
            (r in l.states && l.states[r] == m.states[r]) || PutBy(k, r, o.closer.txid, m.states[r])
  {
    hide GenesisId, TransitionId, Apply, Safe, CanonicalTransition, Placing;
    LiveAfter(env, mode, g, l, o, k.transition, r);
  }

  // ----- seals of accepted bundles have places

  lemma {:induction false} KnownSealable(env: Env, mode: Mode, g: Genesis, l: Ledger, o: Opened, known: seq<Known>)
    requires Safe(g, l) && forall k :: 0 <= k < |known| ==> CanonicalTransition(known[k].transition)
    requires Replay(env, mode, GenesisId(g), l, StepsOf(o, Transitions(known))).Ok?
    ensures Sealable(known, o.closer.txid)
    decreases known
  {
    hide Apply, Replay, StepsOf, Transitions, Safe, GenesisId, CanonicalTransition, PlacesAll;
    ReplayKnown(env, mode, GenesisId(g), l, o, known);
    if known != [] {
      var next := Apply(env, mode, GenesisId(g), l, o, known[0].transition).value;
      KeepsSafe(env, mode, g, l, o, known[0].transition);
      StepPlaces(env, mode, GenesisId(g), l, o, known[0].transition);
      assert forall k :: 0 <= k < |known[1..]| ==> known[1..][k] == known[k + 1];
      KnownSealable(env, mode, g, next, o, known[1..]);
      assert forall k :: 0 < k < |known| ==> known[k] == known[1..][k - 1];
    }
  }

  lemma {:induction false} StepPlaces(env: Env, mode: Mode, contract: Digest, l: Ledger, o: Opened, t: Transition)
    requires CanonicalTransition(t) && Apply(env, mode, contract, l, o, t).Ok?
    ensures PlacesAll(t.assignments, o.closer.txid)
  {
    hide Apply, TransitionId, Register, CanonicalTransition, Validated, PlacesAll;
    Applied(env, mode, contract, l, o, t);
    TransitionIncreases(t);
    RegisterExactly(l.states - Elements(t.inputs), TransitionId(t), t.assignments, o.closer.txid);
  }

  lemma {:induction false} BundlesSealable(env: Env, mode: Mode, g: Genesis, bundles: seq<WitnessBundle>, r: Run)
    requires !mode.allowPrepared && Safe(g, r.ledger) && forall p :: 0 <= p < |bundles| ==> CanonicalWitnessBundle(bundles[p])
    requires RunBundles(env, mode, GenesisId(g), bundles, r).Ok?
    ensures FitToRun(bundles)
    decreases bundles
  {
    hide Open, Replay, Safe, GenesisId, CanonicalTransition, After, Sealable;
    if bundles != [] {
      var contract := GenesisId(g);
      var o := Open(env, false, contract, bundles[0]).value;
      assert CanonicalWitnessBundle(bundles[0]);
      OpensUnder(env, contract, bundles[0]);
      var l := Replay(env, mode, contract, r.ledger, StepsOf(o, o.transitions)).value;
      BundleRecords(env, mode, g, r.ledger, o, bundles[0].bundle.known);
      KnownSealable(env, mode, g, r.ledger, o, bundles[0].bundle.known);
      assert forall p :: 0 <= p < |bundles[1..]| ==> bundles[1..][p] == bundles[p + 1];
      BundlesSealable(env, mode, g, bundles[1..], Close(r, l, o));
      assert forall p :: 0 < p < |bundles| ==> bundles[p] == bundles[1..][p - 1];
    }
  }

  // ----- the key of a permissioned schema

  ghost predicate SameKey(s: Schema, l: Values, m: Values) {
    ByID(s) == Some(PFA) ==> Lookup(l, PERMISSION_KEY) == Lookup(m, PERMISSION_KEY)
  }

  lemma {:induction false} NoNewKey(s: Schema, types: Types, t: Transition, context: Context, resolve: InputRef -> Option<State>)
    requires SteadyKey(s) && ByID(s) == Some(PFA) && CanonicalTransition(t) && Validated(s, types, t, context, resolve).Ok?
    ensures NoGlobal(t.globals, PERMISSION_KEY)
  {
    hide Validated, Conforming, ScriptError, TransitionId, MetadataFits, OutputsFit, InputsFit, CanonicalEntries, CanonicalMetadata, ByID, WellFormedValues, WellBounded;
    TransitionIncreases(t);
    TransitionGlobals(t);
    ValidatedExactly(s, types, t, context, resolve);
    var bounds := s.transitions[t.ty].globals;
    forall i | 0 <= i < |t.globals| ensures t.globals[i].ty != PERMISSION_KEY {
      assert GlobalFits(s, types, bounds, t.globals[i]);
    }
  }

  lemma {:induction false} StepKeepsKey(env: Env, mode: Mode, contract: Digest, l: Ledger, o: Opened, t: Transition)
    requires SteadyKey(env.schema) && CanonicalTransition(t) && Apply(env, mode, contract, l, o, t).Ok?
    ensures SameKey(env.schema, Apply(env, mode, contract, l, o, t).value.globals, l.globals)
  {
    hide Apply, TransitionId, CanonicalTransition, Validated, ByID, SteadyKey, Lookup, AppendGlobals;
    if ByID(env.schema) == Some(PFA) {
      Applied(env, mode, contract, l, o, t);
      NoNewKey(env.schema, env.types, t, Context(contract, l.globals), Resolution(l.states));
      TransitionGlobals(t);
      Appended(l.globals, t.globals, PERMISSION_KEY);
    }
  }

  lemma {:induction false} KnownKeepKey(env: Env, mode: Mode, contract: Digest, l: Ledger, o: Opened, known: seq<Known>)
    requires SteadyKey(env.schema) && forall k :: 0 <= k < |known| ==> CanonicalTransition(known[k].transition)
    requires Replay(env, mode, contract, l, StepsOf(o, Transitions(known))).Ok?
    ensures SameKey(env.schema, Replay(env, mode, contract, l, StepsOf(o, Transitions(known))).value.globals, l.globals)
    decreases known
  {
    hide Apply, Replay, StepsOf, Transitions, CanonicalTransition, SteadyKey, Lookup;
    ReplayKnown(env, mode, contract, l, o, known);
    if known != [] {
      StepKeepsKey(env, mode, contract, l, o, known[0].transition);
      assert forall k :: 0 <= k < |known[1..]| ==> known[1..][k] == known[k + 1];
      KnownKeepKey(env, mode, contract, Apply(env, mode, contract, l, o, known[0].transition).value, o, known[1..]);
    }
  }

  lemma {:induction false} BundlesKeepKey(env: Env, mode: Mode, contract: Digest, bundles: seq<WitnessBundle>, r: Run)
    requires !mode.allowPrepared && SteadyKey(env.schema) && forall p :: 0 <= p < |bundles| ==> CanonicalWitnessBundle(bundles[p])
    requires RunBundles(env, mode, contract, bundles, r).Ok?
    ensures SameKey(env.schema, RunBundles(env, mode, contract, bundles, r).value.ledger.globals, r.ledger.globals)
    decreases bundles
  {
    hide Open, Replay, CanonicalTransition, SteadyKey, Lookup;
    if bundles != [] {
      var o := Open(env, false, contract, bundles[0]).value;
      assert CanonicalWitnessBundle(bundles[0]);
      OpensUnder(env, contract, bundles[0]);
      var l := Replay(env, mode, contract, r.ledger, StepsOf(o, o.transitions)).value;
      KnownKeepKey(env, mode, contract, r.ledger, o, bundles[0].bundle.known);
      assert forall p :: 0 <= p < |bundles[1..]| ==> bundles[1..][p] == bundles[p + 1];
      BundlesKeepKey(env, mode, contract, bundles[1..], Close(r, l, o));
    }
  }

  lemma {:induction false} RunConcat(env: Env, mode: Mode, contract: Digest, a: seq<WitnessBundle>, b: seq<WitnessBundle>, r: Run)
    ensures RunBundles(env, mode, contract, a + b, r) ==
            if RunBundles(env, mode, contract, a, r).Err? then RunBundles(env, mode, contract, a, r)
            else RunBundles(env, mode, contract, b, RunBundles(env, mode, contract, a, r).value)
    decreases a
  {
    hide Open, Replay;
    if a == [] {
      assert a + b == b;
    } else {
      assert (a + b)[1..] == a[1..] + b;
      if Open(env, mode.allowPrepared, contract, a[0]).Ok? {
        var o := Open(env, mode.allowPrepared, contract, a[0]).value;
        var l := Replay(env, mode, contract, r.ledger, StepsOf(o, o.transitions));
        if l.Ok? {
          RunConcat(env, mode, contract, a[1..], b, Close(r, l.value, o));
        }
      }
    }
  }
}
