/** Merging accepted histories gives an accepted history. */
module MergeValid {
  import opened Agreement
  import opened Anchor
  import opened Balance
  import opened Bytes
  import opened Catalog
  import opened Collections
  import opened Commitments
  import opened Conservation
  import opened HistoryFacts
  import opened Merge
  import opened MergeAccepted
  import opened MergeHistories
  import opened MergeOrder
  import opened MergeSuccess
  import opened Operations
  import opened Outputs
  import opened Redisclosure
  import opened Safety
  import opened SchemaAccepts
  import opened Schemas
  import opened SchemaTotals
  import opened Symbols
  import opened Validator
  import opened Wrappers
  import EntryPoints
  import Mpc

  // ----- a merged bundle is both bundles with more disclosed

  /** Merging known transitions changes nothing but their assignments. */
  lemma {:induction false} KnownKept(dst: seq<Known>, byId: map<Digest, nat>, src: seq<Known>, k: nat)
    requires MergeKnown(dst, byId, src).Some? && k < |dst|
    ensures var m := MergeKnown(dst, byId, src).value;
            |m| == |dst| && m[k] == dst[k].(transition := dst[k].transition.(assignments := m[k].transition.assignments))
    decreases src
  {
    hide IdOf, MergeEntries;
    if src != [] {
      var i := byId[IdOf(src[0])];
      var t := MergeTransition(dst[i].transition, src[0].transition).value;
      KnownKept(dst[i := dst[i].(transition := t)], byId, src[1..], k);
    }
  }

  /** A transition of the merged bundle that discloses an output, and the one it was disclosed by. */
  lemma {:induction false} OneDiscloser(known: seq<Known>, k: nat, op: Digest, ty: nat, no: nat)
    requires DistinctKnown(known) && k < |known| && IdOf(known[k]) == op && Discloses(known, op, ty, no)
    ensures IsRevealed(known[k].transition.assignments, ty, no)
  {
    hide IdOf, IsRevealed;
    var j :| 0 <= j < |known| && DisclosesAt(known[j], op, ty, no);
    assert j == k;
  }

  lemma {:induction false} DistinctStill(m: seq<Known>, d: seq<Known>)
    requires SameIds(m, d) && DistinctKnown(d)
    ensures DistinctKnown(m)
  {
    hide IdOf, ConcealedEntries;
    forall i, j | 0 <= i < j < |m| ensures IdOf(m[i]) != IdOf(m[j]) {
      assert Redisclosed(m[i], d[i]) && Redisclosed(m[j], d[j]);
    }
  }

  /** Merging two bundles without repeated operations. */
  ghost predicate Merging2(d: WitnessBundle, s: WitnessBundle, m: WitnessBundle) {
    ValidBundle(d) && ValidBundle(s) && DistinctKnown(d.bundle.known) && MergeBundle(d, s) == Some(m)
  }

  lemma {:induction false} MergedFacts(d: WitnessBundle, s: WitnessBundle, m: WitnessBundle)
    requires Merging2(d, s, m)
    ensures Merged(m, d, s) && Compatible(d, s) && DistinctKnown(m.bundle.known)
    ensures CanonicalKnown(m.bundle.known) && CanonicalKnown(d.bundle.known) && CanonicalKnown(s.bundle.known)
  {
    hide ValidBundle, MergeBundle, DistinctKnown, SameIds, Discloses, BundleIdOf, Compatible;
    BundlesMerge(d, s);
    DistinctStill(m.bundle.known, d.bundle.known);
    ValidKnown(d);
    ValidKnown(s);
    ValidKnown(m);
  }

  lemma {:induction false} SameRevealed(t: Transition, u: Transition, ty: nat, no: nat)
    requires CanonicalTransition(t) && CanonicalTransition(u) && Alike(t, u)
    requires IsRevealed(t.assignments, ty, no) && IsRevealed(u.assignments, ty, no)
    ensures ShowsSame(t, u, ty, no) && ShowsSame(u, t, ty, no)
  {
    hide CanonicalMetadata, CanonicalGlobals, CanonicalEntry, ConcealedEntries;
    SameAssignment(t.assignments, u.assignments, ty, no);
  }

  lemma {:induction false} MergedShows(d: WitnessBundle, s: WitnessBundle, m: WitnessBundle, k: nat, ty: nat, no: nat)
    requires Merging2(d, s, m) && k < |d.bundle.known| && IsRevealed(d.bundle.known[k].transition.assignments, ty, no)
    ensures |m.bundle.known| == |d.bundle.known| && IdOf(m.bundle.known[k]) == IdOf(d.bundle.known[k])
    ensures Alike(m.bundle.known[k].transition, d.bundle.known[k].transition)
    ensures ShowsSame(d.bundle.known[k].transition, m.bundle.known[k].transition, ty, no)
  {
    hide ValidBundle, MergeBundle, DistinctKnown, IsRevealed, IdOf, Alike, BundleIdOf, CanonicalTransition, Of;
    MergedFacts(d, s, m);
    var op := IdOf(d.bundle.known[k]);
    assert Redisclosed(m.bundle.known[k], d.bundle.known[k]);
    assert DisclosesAt(d.bundle.known[k], op, ty, no);
    assert Discloses(d.bundle.known, op, ty, no);
    OneDiscloser(m.bundle.known, k, op, ty, no);
    SameRevealed(m.bundle.known[k].transition, d.bundle.known[k].transition, ty, no);
  }

  lemma {:induction false} MergedMore(d: WitnessBundle, s: WitnessBundle, m: WitnessBundle)
    requires Merging2(d, s, m)
    ensures MoreBundle(m, d)
  {
    hide IdOf, MergeKnown, ValidBundle, IsRevealed, PositionsById, DistinctKnown;
    var dst, src := d.bundle.known, s.bundle.known;
    MergedFacts(d, s, m);
    forall k | 0 <= k < |dst| ensures m.bundle.known[k].declared == dst[k].declared && MoreOf(m.bundle.known[k].transition, dst[k].transition) {
      KnownKept(dst, PositionsById(dst), src, k);
      assert Redisclosed(m.bundle.known[k], dst[k]);
      forall ty: nat, no: nat | IsRevealed(dst[k].transition.assignments, ty, no)
        ensures ShowsSame(dst[k].transition, m.bundle.known[k].transition, ty, no)
      {
        MergedShows(d, s, m, k, ty, no);
      }
    }
  }

  /** Each transition of the source is in the merged bundle, with what it discloses. */
  lemma {:induction false} MergedHas(d: WitnessBundle, s: WitnessBundle, m: WitnessBundle, j: nat) returns (k: nat)
    requires Merging2(d, s, m) && j < |s.bundle.known|
    ensures k < |m.bundle.known| && IdOf(m.bundle.known[k]) == IdOf(s.bundle.known[j])
    ensures Alike(m.bundle.known[k].transition, s.bundle.known[j].transition)
    ensures forall ty: nat, no: nat :: IsRevealed(s.bundle.known[j].transition.assignments, ty, no) ==>
              ShowsSame(s.bundle.known[j].transition, m.bundle.known[k].transition, ty, no)
  {
    hide IdOf, MergeBundle, ValidBundle, IsRevealed, PositionsById, DistinctKnown, ConcealedEntries, CanonicalTransition, Of;
    var dst, src := d.bundle.known, s.bundle.known;
    MergedFacts(d, s, m);
    assert Matched(dst, PositionsById(dst), src[j]);
    PositionsByIdMean(dst, IdOf(src[j]));
    k := PositionsById(dst)[IdOf(src[j])];
    assert Redisclosed(m.bundle.known[k], dst[k]);
    forall ty: nat, no: nat | IsRevealed(src[j].transition.assignments, ty, no)
      ensures ShowsSame(src[j].transition, m.bundle.known[k].transition, ty, no)
    {
      assert DisclosesAt(src[j], IdOf(src[j]), ty, no);
      assert Discloses(src, IdOf(src[j]), ty, no);
      OneDiscloser(m.bundle.known, k, IdOf(src[j]), ty, no);
      SameRevealed(m.bundle.known[k].transition, src[j].transition, ty, no);
    }
  }

  /** What the merged bundle discloses, one of the two disclosed. */
  lemma {:induction false} MergedFrom(d: WitnessBundle, s: WitnessBundle, m: WitnessBundle, k: nat, ty: nat, no: nat)
    requires Merging2(d, s, m) && k < |m.bundle.known| && IsRevealed(m.bundle.known[k].transition.assignments, ty, no)
    ensures || (k < |d.bundle.known| && ShowsSame(d.bundle.known[k].transition, m.bundle.known[k].transition, ty, no))
            || exists j :: 0 <= j < |s.bundle.known| && ShowsSame(s.bundle.known[j].transition, m.bundle.known[k].transition, ty, no)
  {
    hide IdOf, MergeBundle, ValidBundle, IsRevealed, PositionsById, DistinctKnown, ConcealedEntries, CanonicalTransition, Of;
    var dst, src := d.bundle.known, s.bundle.known;
    MergedFacts(d, s, m);
    var op := IdOf(m.bundle.known[k]);
    assert Redisclosed(m.bundle.known[k], dst[k]);
    assert DisclosesAt(m.bundle.known[k], op, ty, no);
    assert Discloses(m.bundle.known, op, ty, no);
    if Discloses(dst, op, ty, no) {
      OneDiscloser(dst, k, op, ty, no);
      SameRevealed(dst[k].transition, m.bundle.known[k].transition, ty, no);
    } else {
      var j :| 0 <= j < |src| && DisclosesAt(src[j], op, ty, no);
      var i := MergedHas(d, s, m, j);
      OnlyPlace(m.bundle.known, i, k);
      SameRevealed(src[j].transition, m.bundle.known[k].transition, ty, no);
      assert ShowsSame(src[j].transition, m.bundle.known[k].transition, ty, no);
    }
  }

  lemma {:induction false} OnlyPlace(known: seq<Known>, i: nat, k: nat)
    requires DistinctKnown(known) && i < |known| && k < |known| && IdOf(known[i]) == IdOf(known[k])
    ensures i == k
  {
    hide IdOf;
  }

  ghost predicate ShowsSame(t: Transition, u: Transition, ty: nat, no: nat) {
    IsRevealed(t.assignments, ty, no) && IsRevealed(u.assignments, ty, no) && Of(t.assignments, ty)[no] == Of(u.assignments, ty)[no]
  }

  lemma {:induction false} MergedSealable(d: WitnessBundle, s: WitnessBundle, m: WitnessBundle, txid: Digest)
    requires Merging2(d, s, m) && Sealable(d.bundle.known, txid) && Sealable(s.bundle.known, txid)
    ensures Sealable(m.bundle.known, txid)
  {
    hide Merging2, Placing, Of;
    forall k | 0 <= k < |m.bundle.known| ensures PlacesAll(m.bundle.known[k].transition.assignments, txid) {
      forall ty: nat, no: nat | IsRevealed(m.bundle.known[k].transition.assignments, ty, no)
        ensures var a := Of(m.bundle.known[k].transition.assignments, ty)[no]; Placing(a.state, a.seal, txid).Ok?
      {
        MergedFrom(d, s, m, k, ty, no);
        if k < |d.bundle.known| && ShowsSame(d.bundle.known[k].transition, m.bundle.known[k].transition, ty, no) {
          PlacedOne(d.bundle.known, k, txid, ty, no);
        } else {
          var j :| 0 <= j < |s.bundle.known| && ShowsSame(s.bundle.known[j].transition, m.bundle.known[k].transition, ty, no);
          PlacedOne(s.bundle.known, j, txid, ty, no);
        }
      }
    }
  }

  lemma {:induction false} PlacedOne(known: seq<Known>, k: nat, txid: Digest, ty: nat, no: nat)
    requires Sealable(known, txid) && k < |known| && IsRevealed(known[k].transition.assignments, ty, no)
    ensures var a := Of(known[k].transition.assignments, ty)[no]; Placing(a.state, a.seal, txid).Ok?
  {
    hide Placing, Of;
    assert PlacesAll(known[k].transition.assignments, txid);
  }

  // ----- accepted lists of bundles

  function Told(g: Genesis, bundles: seq<WitnessBundle>): Consignment {
    Consignment(g, false, [], bundles)
  }

  /** The history runs, without prepared witnesses. */
  ghost predicate Runs(env: Env, mode: Mode, g: Genesis, bundles: seq<WitnessBundle>) {
    !mode.allowPrepared && CanonicalConsignment(Told(g, bundles)) && RunAll(env, mode, Told(g, bundles)).Ok?
  }

  function LedgerOf(env: Env, mode: Mode, g: Genesis, bundles: seq<WitnessBundle>): Ledger
    requires RunAll(env, mode, Told(g, bundles)).Ok?
  {
    RunAll(env, mode, Told(g, bundles)).value.ledger
  }

  function First(g: Genesis): Run
    requires Start(g).Ok?
  {
    Run(Start(g).value, map[], true)
  }

  /** A history runs exactly when its genesis is accepted and its bundles run from there. */
  lemma {:induction false} RunsFromStart(env: Env, mode: Mode, g: Genesis, bundles: seq<WitnessBundle>)
    requires !mode.allowPrepared && CanonicalConsignment(Told(g, bundles))
    ensures Runs(env, mode, g, bundles) <==>
            GenesisError(env.schema, env.types, g) == None && Start(g).Ok? && RunBundles(env, mode, GenesisId(g), bundles, First(g)).Ok?
    ensures Runs(env, mode, g, bundles) ==>
              LedgerOf(env, mode, g, bundles) == RunBundles(env, mode, GenesisId(g), bundles, First(g)).value.ledger
  {
    hide GenesisError, Start, RunBundles, GenesisId, CanonicalGenesis, CanonicalWitnessBundle;
  }

  lemma {:induction false} RunFacts(env: Env, mode: Mode, g: Genesis, bundles: seq<WitnessBundle>)
    requires Runs(env, mode, g, bundles)
    ensures Start(g).Ok? && Safe(g, Start(g).value) && Safe(g, LedgerOf(env, mode, g, bundles))
    ensures AfterAll(env, GenesisId(g), Start(g).value, LedgerOf(env, mode, g, bundles), bundles)
    ensures FitToRun(bundles)
    ensures SteadyKey(env.schema) ==> SameKey(env.schema, LedgerOf(env, mode, g, bundles).globals, Start(g).value.globals)
  {
    hide GenesisError, Start, RunBundles, GenesisId, CanonicalGenesis, CanonicalWitnessBundle, Safe, AfterAll, FitToRun, SteadyKey, SameKey, RunAll;
    RunsFromStart(env, mode, g, bundles);
    SafeStart(g);
    BundlesRecord(env, mode, g, bundles, First(g));
    BundlesSealable(env, mode, g, bundles, First(g));
    if SteadyKey(env.schema) {
      BundlesKeepKey(env, mode, GenesisId(g), bundles, First(g));
    }
  }

  lemma {:induction false} CanonicalPart(g: Genesis, a: seq<WitnessBundle>, b: seq<WitnessBundle>)
    ensures CanonicalConsignment(Told(g, a + b)) <==> CanonicalConsignment(Told(g, a)) && CanonicalConsignment(Told(g, b))
  {
    hide CanonicalGenesis, CanonicalWitnessBundle;
    var all := a + b;
    assert forall i :: 0 <= i < |a| ==> all[i] == a[i];
    assert forall i :: 0 <= i < |b| ==> all[|a| + i] == b[i];
    assert forall i :: |a| <= i < |all| ==> all[i] == b[i - |a|];
  }

  /** The last bundle of a history, run from what came before it. */
  lemma {:induction false} RunsLast(env: Env, mode: Mode, g: Genesis, bundles: seq<WitnessBundle>, wb: WitnessBundle)
    requires Runs(env, mode, g, bundles) && CanonicalWitnessBundle(wb)
    ensures Runs(env, mode, g, bundles + [wb]) <==>
            && Open(env, false, GenesisId(g), wb).Ok?
            && var o := Open(env, false, GenesisId(g), wb).value;
               Replay(env, mode, GenesisId(g), LedgerOf(env, mode, g, bundles), StepsOf(o, Transitions(wb.bundle.known))).Ok?
    ensures Runs(env, mode, g, bundles + [wb]) ==>
              var o := Open(env, false, GenesisId(g), wb).value;
              LedgerOf(env, mode, g, bundles + [wb]) ==
              Replay(env, mode, GenesisId(g), LedgerOf(env, mode, g, bundles), StepsOf(o, Transitions(wb.bundle.known))).value
  {
    hide GenesisError, Start, GenesisId, CanonicalGenesis, CanonicalWitnessBundle, Open, Replay, RunAll, CanonicalConsignment;
    var contract := GenesisId(g);
    CanonicalPart(g, bundles, [wb]);
    assert CanonicalConsignment(Told(g, [wb])) by { OneCanonical(g, bundles, wb); }
    RunsFromStart(env, mode, g, bundles);
    RunsFromStart(env, mode, g, bundles + [wb]);
    RunConcat(env, mode, contract, bundles, [wb], First(g));
    var r := RunBundles(env, mode, contract, bundles, First(g)).value;
    assert [wb][1..] == [];
    if Open(env, false, contract, wb).Ok? {
      OpensUnder(env, contract, wb);
      var o := Open(env, false, contract, wb).value;
      var l := Replay(env, mode, contract, r.ledger, StepsOf(o, o.transitions));
      if l.Ok? {
        assert RunBundles(env, mode, contract, [], Close(r, l.value, o)) == Ok(Close(r, l.value, o));
      }
    }
  }

  lemma {:induction false} OneCanonical(g: Genesis, bundles: seq<WitnessBundle>, wb: WitnessBundle)
    requires CanonicalConsignment(Told(g, bundles)) && CanonicalWitnessBundle(wb)
    ensures CanonicalConsignment(Told(g, [wb]))
  {
    hide CanonicalGenesis, CanonicalWitnessBundle;
  }

  lemma {:induction false} RunsPrefix(env: Env, mode: Mode, g: Genesis, a: seq<WitnessBundle>, b: seq<WitnessBundle>)
    requires Runs(env, mode, g, a + b)
    ensures Runs(env, mode, g, a)
  {
    hide GenesisError, Start, GenesisId, RunAll, CanonicalConsignment, RunBundles;
    CanonicalPart(g, a, b);
    RunsFromStart(env, mode, g, a + b);
    RunsFromStart(env, mode, g, a);
    RunConcat(env, mode, GenesisId(g), a, b, First(g));
  }

  // ----- disclosing more in one bundle

  lemma {:induction false} MoreRefl(wb: WitnessBundle)
    ensures MoreBundle(wb, wb)
  {
  }

  lemma {:induction false} CoversItself(s: Schema, contract: Digest, l: Ledger, g: Genesis)
    requires Safe(g, l)
    ensures Covers(s, contract, l, l)
  {
    hide Safe, ByID;
  }

  /** A history with one bundle disclosed further runs, and ends with at least the same outputs. */
  lemma {:induction false} RunsDisclosed(env: Env, mode: Mode, g: Genesis, bundles: seq<WitnessBundle>, p: nat, m: WitnessBundle)
    requires Runs(env, mode, g, bundles) && p < |bundles| && MoreBundle(m, bundles[p])
    requires CanonicalWitnessBundle(m) && Sealable(m.bundle.known, TxidOf(m.pub))
    ensures Runs(env, mode, g, bundles[p := m])
    ensures Covers(env.schema, GenesisId(g), LedgerOf(env, mode, g, bundles[p := m]), LedgerOf(env, mode, g, bundles))
  {
    hide GenesisError, Start, GenesisId, CanonicalGenesis, RunBundles, Safe, CanonicalWitnessBundle, MoreBundle, Covers, Sealable, RunAll;
    var next := bundles[p := m];
    RunFacts(env, mode, g, bundles);
    RunsFromStart(env, mode, g, bundles);
    assert CanonicalConsignment(Told(g, next));
    RunsFromStart(env, mode, g, next);
    forall q | 0 <= q < |next| ensures MoreBundle(next[q], bundles[q]) { MoreRefl(bundles[q]); }
    assert FitToRun(next);
    CoversItself(env.schema, GenesisId(g), Start(g).value, g);
    BundlesCovered(env, mode, g, next, bundles, First(g), First(g));
  }

  // ----- appending a bundle of another history

  /** Two histories of one contract under one view of the chain. */
  ghost predicate View(env: Env) {
    TotalOrder(env.crypto.less) && env.resolver.Some? && OneSpender(env.resolver.value) && SteadyKey(env.schema)
  }

  lemma {:induction false} RunsAccepted(env: Env, mode: Mode, g: Genesis, bundles: seq<WitnessBundle>)
    requires Runs(env, mode, g, bundles)
    ensures Accepts(env, mode, Told(g, bundles), LedgerOf(env, mode, g, bundles))
  {
    hide CanonicalConsignment, RunAll;
  }

  lemma {:induction false} AgreeOn(env: Env, mode: Mode, g: Genesis, a: seq<WitnessBundle>, b: seq<WitnessBundle>, i: nat, j: nat, ref: InputRef)
    requires View(env) && Runs(env, mode, g, a) && Runs(env, mode, g, b)
    requires i < |LedgerOf(env, mode, g, a).log| && j < |LedgerOf(env, mode, g, b).log|
    requires Spends(LedgerOf(env, mode, g, a).log[i], ref) && Spends(LedgerOf(env, mode, g, b).log[j], ref)
    ensures LedgerOf(env, mode, g, a).log[i].host.id == LedgerOf(env, mode, g, b).log[j].host.id
  {
    hide CanonicalConsignment, RunAll, TotalOrder, OneSpender, SteadyKey, GenesisId, Spends;
    RunsAccepted(env, mode, g, a);
    RunsAccepted(env, mode, g, b);
    HistoriesAgree(env, mode, Told(g, a), LedgerOf(env, mode, g, a), env, mode, Told(g, b), LedgerOf(env, mode, g, b));
  }

  lemma {:induction false} ConsumerOf(g: Genesis, l: Ledger, ref: InputRef) returns (i: nat)
    requires Safe(g, l) && ref in l.consumed
    ensures i < |l.log| && Spends(l.log[i], ref)
  {
    hide GenesisId, Spends, SoundLog, Graphed, Traced, Bundled;
    i :| 0 <= i < |l.log| && Spends(l.log[i], ref);
  }

  lemma {:induction false} HostOf(env: Env, mode: Mode, g: Genesis, bundles: seq<WitnessBundle>, i: nat) returns (p: nat)
    requires Runs(env, mode, g, bundles) && i < |LedgerOf(env, mode, g, bundles).log|
    ensures p < |bundles| && LedgerOf(env, mode, g, bundles).log[i].host.id == BundleIdOf(bundles[p])
  {
    hide GenesisError, Start, GenesisId, RunBundles, Safe, CanonicalConsignment, RunAll, Later, RanBundle, Open, BundleId, FitToRun, SteadyKey, SameKey;
    RunFacts(env, mode, g, bundles);
    StartLogEmpty(g);
    var l := LedgerOf(env, mode, g, bundles);
    assert HostedBy(env, GenesisId(g), l.log[i].host, bundles);
    p :| 0 <= p < |bundles| && Open(env, false, GenesisId(g), bundles[p]) == Ok(l.log[i].host);
    OpensUnder(env, GenesisId(g), bundles[p]);
  }

  lemma {:induction false} StartLogEmpty(g: Genesis)
    requires Start(g).Ok?
    ensures Start(g).value.log == [] && Start(g).value.consumed == {}
  {
  }

  lemma {:induction false} RecordOf(env: Env, mode: Mode, g: Genesis, bundles: seq<WitnessBundle>, p: nat, k: nat) returns (i: nat)
    requires Runs(env, mode, g, bundles) && p < |bundles| && k < |bundles[p].bundle.known|
    ensures i < |LedgerOf(env, mode, g, bundles).log|
    ensures var e := LedgerOf(env, mode, g, bundles).log[i]; e.transition == bundles[p].bundle.known[k].transition && e.host.id == BundleIdOf(bundles[p])
  {
    hide GenesisError, Start, GenesisId, RunBundles, Safe, CanonicalConsignment, RunAll, Later, HoldsAll, Open, BundleId, FitToRun, SteadyKey, SameKey, HostedBy;
    RunFacts(env, mode, g, bundles);
    var l := LedgerOf(env, mode, g, bundles);
    assert RanBundle(env, GenesisId(g), l, bundles[p]);
    var o := Open(env, false, GenesisId(g), bundles[p]).value;
    assert HasEvent(l.log, o, bundles[p].bundle.known[k].transition);
    i :| 0 <= i < |l.log| && IsEvent(l.log[i], o, bundles[p].bundle.known[k].transition);
    OpensUnder(env, GenesisId(g), bundles[p]);
  }

  /** What a bundle of the other history spends, a history without this bundle did not consume. */
  lemma {:induction false} Untouched(env: Env, mode: Mode, g: Genesis, a: seq<WitnessBundle>, b: seq<WitnessBundle>, p: nat, k: nat, ref: InputRef)
    requires View(env) && Runs(env, mode, g, a) && Runs(env, mode, g, b)
    requires p < |b| && k < |b[p].bundle.known| && ref in b[p].bundle.known[k].transition.inputs
    requires forall q :: 0 <= q < |a| ==> BundleIdOf(a[q]) != BundleIdOf(b[p])
    ensures ref !in LedgerOf(env, mode, g, a).consumed
  {
    hide View, BundleIdOf, Safe, RunAll, CanonicalConsignment;
    if ref in LedgerOf(env, mode, g, a).consumed {
      AgainstBoth(env, mode, g, a, b, p, k, ref);
    }
  }

  lemma {:induction false} AgainstBoth(env: Env, mode: Mode, g: Genesis, a: seq<WitnessBundle>, b: seq<WitnessBundle>, p: nat, k: nat, ref: InputRef)
    requires View(env) && Runs(env, mode, g, a) && Runs(env, mode, g, b)
    requires p < |b| && k < |b[p].bundle.known| && ref in b[p].bundle.known[k].transition.inputs
    requires ref in LedgerOf(env, mode, g, a).consumed
    ensures exists q :: 0 <= q < |a| && BundleIdOf(a[q]) == BundleIdOf(b[p])
  {
    hide View, BundleIdOf, Safe, RunAll, CanonicalConsignment, AfterAll, FitToRun, SameKey, Start, GenesisId;
    RunFacts(env, mode, g, a);
    var i := ConsumerOf(g, LedgerOf(env, mode, g, a), ref);
    var j := RecordOf(env, mode, g, b, p, k);
    AgreeOn(env, mode, g, a, b, i, j, ref);
    var q := HostOf(env, mode, g, a, i);
  }

  /** Two ledgers of which the first holds what is live in the second, and consumed nothing
      else outside `gone`. */
  ghost predicate Ahead(s: Schema, m: Ledger, l: Ledger, gone: set<InputRef>) {
    HeldBy(l, m) && m.consumed <= l.consumed + gone && SameKey(s, m.globals, l.globals)
  }

  lemma {:induction false} SameTransition(t: Transition)
    ensures MoreOf(t, t)
  {
  }

  lemma {:induction false} KeyContext(s: Schema, contract: Digest, m: Ledger, l: Ledger, gone: set<InputRef>)
    requires Ahead(s, m, l, gone)
    ensures SameContext(s, Context(contract, m.globals), Context(contract, l.globals))
  {
    hide ByID, Lookup;
  }

  lemma {:induction false} KeyAfter(env: Env, mode: Mode, contract: Digest, m: Ledger, l: Ledger, o: Opened, t: Transition)
    requires SteadyKey(env.schema) && SameKey(env.schema, m.globals, l.globals) && CanonicalTransition(t)
    requires Apply(env, mode, contract, l, o, t).Ok? && Apply(env, mode, contract, m, o, t).Ok?
    ensures SameKey(env.schema, Apply(env, mode, contract, m, o, t).value.globals, Apply(env, mode, contract, l, o, t).value.globals)
  {
    hide ByID, Lookup, Apply, SteadyKey, CanonicalTransition;
    StepKeepsKey(env, mode, contract, l, o, t);
    StepKeepsKey(env, mode, contract, m, o, t);
  }

  /** A step that one ledger accepts is accepted by a ledger ahead of it that did not
      consume its inputs. */
  lemma {:induction false} StepAppended(env: Env, mode: Mode, g: Genesis, m: Ledger, l: Ledger, o: Opened, t: Transition, gone: set<InputRef>)
    requires SteadyKey(env.schema) && Safe(g, l) && Safe(g, m) && CanonicalTransition(t) && Ahead(env.schema, m, l, gone)
    requires !o.closer.state.Prepared? && Apply(env, mode, GenesisId(g), l, o, t).Ok? && forall r :: r in t.inputs ==> r !in gone
    ensures Apply(env, mode, GenesisId(g), m, o, t).Ok?
    ensures var x, y := Apply(env, mode, GenesisId(g), l, o, t).value, Apply(env, mode, GenesisId(g), m, o, t).value;
            Safe(g, x) && Safe(g, y) && Ahead(env.schema, y, x, gone)
  {
    hide GenesisId, TransitionId, Apply, Safe, CanonicalTransition, SteadyKey, SameKey, SameContext, MoreOf, PlacesAll;
    var contract := GenesisId(g);
    SameTransition(t);
    ApartLedger(g, l);
    assert InputsThere(t, l, m);
    KeyContext(env.schema, contract, m, l, gone);
    StepPlaces(env, mode, contract, l, o, t);
    StepCarries(env, mode, contract, l, m, o, o, t, t);
    KeepsSafe(env, mode, g, l, o, t);
    KeepsSafe(env, mode, g, m, o, t);
    KeyAfter(env, mode, contract, m, l, o, t);
    Applied(env, mode, contract, l, o, t);
    Applied(env, mode, contract, m, o, t);
    HeldAfter(env, mode, g, m, l, o, t);
  }

  lemma {:induction false} HeldAfter(env: Env, mode: Mode, g: Genesis, m: Ledger, l: Ledger, o: Opened, t: Transition)
    requires Safe(g, l) && Safe(g, m) && CanonicalTransition(t) && HeldBy(l, m)
    requires Apply(env, mode, GenesisId(g), l, o, t).Ok? && Apply(env, mode, GenesisId(g), m, o, t).Ok?
    ensures HeldBy(Apply(env, mode, GenesisId(g), l, o, t).value, Apply(env, mode, GenesisId(g), m, o, t).value)
  {
    hide GenesisId, TransitionId, Apply, Safe, CanonicalTransition, Placing, Of, Held, PutsAt;
    var x, y := Apply(env, mode, GenesisId(g), l, o, t).value, Apply(env, mode, GenesisId(g), m, o, t).value;
    StepHolds(env, mode, g, m, o, t);
    forall r | r in x.states ensures Held(y, r, x.states[r]) {
      NewOrOld(env, mode, g, l, o, t, r);
      if r.op == TransitionId(t) {
        assert PutsAt(t, r.ty, r.no, o.closer.txid, x.states[r]);
      } else {
        HeldLater(m, y, r, l.states[r]);
      }
    }
  }

  lemma {:induction false} NewOrOld(env: Env, mode: Mode, g: Genesis, l: Ledger, o: Opened, t: Transition, r: InputRef)
    requires Safe(g, l) && CanonicalTransition(t) && Apply(env, mode, GenesisId(g), l, o, t).Ok?
    requires r in Apply(env, mode, GenesisId(g), l, o, t).value.states
    ensures var x := Apply(env, mode, GenesisId(g), l, o, t).value;
            if r.op == TransitionId(t) then PutsAt(t, r.ty, r.no, o.closer.txid, x.states[r]) else r in l.states && x.states[r] == l.states[r]
  {
    hide GenesisId, TransitionId, Apply, Safe, CanonicalTransition, Placing, Of;
    LiveAfter(env, mode, g, l, o, t, r);
  }

  lemma {:induction false} KnownAppended(env: Env, mode: Mode, g: Genesis, m: Ledger, l: Ledger, o: Opened, known: seq<Known>, gone: set<InputRef>)
    requires SteadyKey(env.schema) && Safe(g, l) && Safe(g, m) && Ahead(env.schema, m, l, gone) && !o.closer.state.Prepared?
    requires forall k :: 0 <= k < |known| ==> CanonicalTransition(known[k].transition)
    requires forall k, r :: 0 <= k < |known| && r in known[k].transition.inputs ==> r !in gone
    requires Replay(env, mode, GenesisId(g), l, StepsOf(o, Transitions(known))).Ok?
    ensures Replay(env, mode, GenesisId(g), m, StepsOf(o, Transitions(known))).Ok?
    ensures HeldBy(Replay(env, mode, GenesisId(g), l, StepsOf(o, Transitions(known))).value,
                   Replay(env, mode, GenesisId(g), m, StepsOf(o, Transitions(known))).value)
    decreases known
  {
    hide Apply, Replay, StepsOf, Transitions, Safe, GenesisId, CanonicalTransition, SteadyKey, HeldBy, SameKey;
    ReplayKnown(env, mode, GenesisId(g), l, o, known);
    ReplayKnown(env, mode, GenesisId(g), m, o, known);
    if known != [] {
      var t, rest := known[0].transition, known[1..];
      StepAppended(env, mode, g, m, l, o, t, gone);
      assert forall k :: 0 <= k < |rest| ==> rest[k] == known[k + 1];
      KnownAppended(env, mode, g, Apply(env, mode, GenesisId(g), m, o, t).value, Apply(env, mode, GenesisId(g), l, o, t).value, o, rest, gone);
    }
  }

  // ----- absorbing an accepted history

  /** The list so far holds what the beginning of the other history left. */
  ghost predicate Caught(env: Env, mode: Mode, g: Genesis, bundles: seq<WitnessBundle>, done: seq<WitnessBundle>) {
    && Runs(env, mode, g, bundles) && Runs(env, mode, g, done)
    && HeldBy(LedgerOf(env, mode, g, done), LedgerOf(env, mode, g, bundles))
  }

  lemma {:induction false} AllIn(consumed: set<InputRef>, other: set<InputRef>)
    ensures consumed <= other + consumed
  {
  }

  lemma {:induction false} SameKeys(s: Schema, a: Values, b: Values, c: Values)
    requires SameKey(s, a, c) && SameKey(s, b, c)
    ensures SameKey(s, a, b)
  {
    hide ByID, Lookup;
  }

  /** A new bundle of the other history is appended. */
  lemma {:induction false} AppendRuns(env: Env, mode: Mode, g: Genesis, bundles: seq<WitnessBundle>, done: seq<WitnessBundle>, wb: WitnessBundle, rest: seq<WitnessBundle>)
    requires View(env) && Caught(env, mode, g, bundles, done) && Runs(env, mode, g, done + [wb] + rest)
    requires forall q :: 0 <= q < |bundles| ==> BundleIdOf(bundles[q]) != BundleIdOf(wb)
    ensures Caught(env, mode, g, bundles + [wb], done + [wb])
  {
    hide Apply, Replay, StepsOf, Transitions, Safe, GenesisId, CanonicalTransition, SteadyKey, HeldBy, SameKey, Open, RunAll,
         CanonicalConsignment, TotalOrder, OneSpender, AfterAll, FitToRun, Start, BundleIdOf;
    var contract := GenesisId(g);
    RunsPrefix(env, mode, g, done + [wb], rest);
    assert CanonicalWitnessBundle(wb) by { LastCanonical(g, done, wb); }
    RunsLast(env, mode, g, done, wb);
    RunsLast(env, mode, g, bundles, wb);
    RunFacts(env, mode, g, done);
    RunFacts(env, mode, g, bundles);
    OpensUnder(env, contract, wb);
    var o := Open(env, false, contract, wb).value;
    var l, m := LedgerOf(env, mode, g, done), LedgerOf(env, mode, g, bundles);
    SameKeys(env.schema, m.globals, l.globals, Start(g).value.globals);
    AllIn(m.consumed, l.consumed);
    forall k, r | 0 <= k < |wb.bundle.known| && r in wb.bundle.known[k].transition.inputs ensures r !in m.consumed {
      assert (done + [wb] + rest)[|done|] == wb;
      Untouched(env, mode, g, bundles, done + [wb] + rest, |done|, k, r);
    }
    KnownAppended(env, mode, g, m, l, o, wb.bundle.known, m.consumed);
  }

  lemma {:induction false} LastCanonical(g: Genesis, done: seq<WitnessBundle>, wb: WitnessBundle)
    requires CanonicalConsignment(Told(g, done + [wb]))
    ensures CanonicalWitnessBundle(wb)
  {
    hide CanonicalGenesis, CanonicalWitnessBundle;
    assert (done + [wb])[|done|] == wb;
  }

  lemma {:induction false} HeldByMore(s: Schema, contract: Digest, n: Ledger, m: Ledger, l: Ledger)
    requires HeldBy(l, m) && Covers(s, contract, n, m)
    ensures HeldBy(l, n)
  {
    hide SameContext;
  }

  /** A bundle that both histories have is disclosed further where it stands. */
  lemma {:induction false} ShareRuns(env: Env, mode: Mode, g: Genesis, bundles: seq<WitnessBundle>, done: seq<WitnessBundle>, wb: WitnessBundle,
                                     rest: seq<WitnessBundle>, p: nat, m: WitnessBundle)
    requires View(env) && Caught(env, mode, g, bundles, done) && Runs(env, mode, g, done + [wb] + rest)
    requires p < |bundles| && Merging2(bundles[p], wb, m)
    ensures Caught(env, mode, g, bundles[p := m], done + [wb])
  {
    hide Safe, GenesisId, CanonicalTransition, SteadyKey, SameKey, Open, RunAll, CanonicalConsignment, TotalOrder, OneSpender, AfterAll, Start,
         BundleIdOf, Merging2, MoreBundle, Sealable, HeldBy, Covers, Replay, SameKey, CanonicalWitnessBundle, View;
    var contract, next := GenesisId(g), bundles[p := m];
    RunsPrefix(env, mode, g, done + [wb], rest);
    RunFacts(env, mode, g, bundles);
    RunFacts(env, mode, g, done + [wb]);
    assert (done + [wb])[|done|] == wb;
    MergedMore(bundles[p], wb, m);
    SamePub(bundles[p], wb, m);
    MergedSealable(bundles[p], wb, m, TxidOf(m.pub));
    RunsDisclosed(env, mode, g, bundles, p, m);
    RunFacts(env, mode, g, next);
    assert CanonicalWitnessBundle(wb) by { LastCanonical(g, done, wb); }
    RunsLast(env, mode, g, done, wb);
    HeldByMore(env.schema, contract, LedgerOf(env, mode, g, next), LedgerOf(env, mode, g, bundles), LedgerOf(env, mode, g, done));
    SharedHeld(env, mode, g, next, done, wb, p, bundles[p]);
  }

  lemma {:induction false} SamePub(d: WitnessBundle, s: WitnessBundle, m: WitnessBundle)
    requires Merging2(d, s, m)
    ensures m.pub == d.pub == s.pub && CanonicalWitnessBundle(m)
  {
    hide BundleIdOf, MergeKnown, CanonicalTransition, DistinctKnown, BundleOf;
    MergedFacts(d, s, m);
  }

  lemma {:induction false} SharedOne(n: Ledger, d: WitnessBundle, wb: WitnessBundle, m: WitnessBundle, txid: Digest, r: InputRef, q: Placed)
    requires Merging2(d, wb, m) && ByKnown(wb.bundle.known, r, txid, q)
    requires forall k :: 0 <= k < |m.bundle.known| ==> HoldsAll(n, m.bundle.known[k].transition, txid)
    ensures Held(n, r, q)
  {
    hide Merging2, Held, HoldsAll, IdOf, Placing, Of;
    var j :| 0 <= j < |wb.bundle.known| && PutBy(wb.bundle.known[j], r, txid, q);
    var k := MergedHas(d, wb, m, j);
    StillPut(wb.bundle.known[j], m.bundle.known[k], r, txid, q);
    HoldsOne(n, m.bundle.known[k], txid, r, q);
  }

  /** The merged bundle ran, so what it discloses is held. */
  lemma {:induction false} RanHolds(env: Env, mode: Mode, g: Genesis, bundles: seq<WitnessBundle>, p: nat)
    requires Runs(env, mode, g, bundles) && p < |bundles|
    ensures forall k :: 0 <= k < |bundles[p].bundle.known| ==>
              HoldsAll(LedgerOf(env, mode, g, bundles), bundles[p].bundle.known[k].transition, TxidOf(bundles[p].pub))
  {
    hide RunAll, Safe, GenesisId, CanonicalConsignment, Start, Later, HostedBy, FitToRun, SameKey, HoldsAll, HasEvent, SteadyKey, Open, Extends;
    RunFacts(env, mode, g, bundles);
    assert RanBundle(env, GenesisId(g), LedgerOf(env, mode, g, bundles), bundles[p]);
  }

  /** What a bundle leaves was there before, or is disclosed in it. */
  lemma {:induction false} LastLeaves(env: Env, mode: Mode, g: Genesis, done: seq<WitnessBundle>, wb: WitnessBundle)
    requires Runs(env, mode, g, done) && Runs(env, mode, g, done + [wb]) && CanonicalWitnessBundle(wb)
    ensures CameFrom(LedgerOf(env, mode, g, done), LedgerOf(env, mode, g, done + [wb]), wb.bundle.known, TxidOf(wb.pub))
  {
    hide RunAll, Safe, GenesisId, CanonicalConsignment, Start, FitToRun, SameKey, AfterAll, SteadyKey, Open, Replay, StepsOf, Transitions, CameFrom;
    RunsLast(env, mode, g, done, wb);
    RunFacts(env, mode, g, done);
    OpensUnder(env, GenesisId(g), wb);
    BundleLeaves(env, mode, g, LedgerOf(env, mode, g, done), Open(env, false, GenesisId(g), wb).value, wb.bundle.known);
  }

  /** What the shared bundle leaves in the other history is held where the merged one ran. */
  lemma {:induction false} SharedHeld(env: Env, mode: Mode, g: Genesis, next: seq<WitnessBundle>, done: seq<WitnessBundle>, wb: WitnessBundle, p: nat, d: WitnessBundle)
    requires Runs(env, mode, g, next) && Runs(env, mode, g, done) && Runs(env, mode, g, done + [wb]) && CanonicalWitnessBundle(wb)
    requires p < |next| && Merging2(d, wb, next[p])
    requires HeldBy(LedgerOf(env, mode, g, done), LedgerOf(env, mode, g, next))
    ensures HeldBy(LedgerOf(env, mode, g, done + [wb]), LedgerOf(env, mode, g, next))
  {
    hide RunAll, CanonicalConsignment, Merging2, Held, HoldsAll, ByKnown, CanonicalWitnessBundle;
    LastLeaves(env, mode, g, done, wb);
    RanHolds(env, mode, g, next, p);
    SamePub(d, wb, next[p]);
    var l, m, n := LedgerOf(env, mode, g, done), LedgerOf(env, mode, g, done + [wb]), LedgerOf(env, mode, g, next);
    forall r | r in m.states ensures Held(n, r, m.states[r]) {
      if r in l.states && l.states[r] == m.states[r] {
        assert Held(n, r, l.states[r]);
      } else {
        SharedOne(n, d, wb, next[p], TxidOf(wb.pub), r, m.states[r]);
      }
    }
  }

  lemma {:induction false} HoldsOne(l: Ledger, k: Known, txid: Digest, r: InputRef, q: Placed)
    requires HoldsAll(l, k.transition, txid) && PutBy(k, r, txid, q)
    ensures Held(l, r, q)
  {
    hide PutsAt, Held, TransitionId;
    assert InputRef(TransitionId(k.transition), r.ty, r.no) == r;
  }

  lemma {:induction false} StillPut(a: Known, b: Known, r: InputRef, txid: Digest, q: Placed)
    requires PutBy(a, r, txid, q) && IdOf(a) == IdOf(b) && ShowsSame(a.transition, b.transition, r.ty, r.no)
    ensures PutBy(b, r, txid, q)
  {
    hide IdOf, Placing, Of;
  }

  /** Whatever is absorbed of an accepted history into an accepted one, the result is accepted. */
  lemma {:induction false} AbsorbRuns(env: Env, mode: Mode, g: Genesis, bundles: seq<WitnessBundle>, done: seq<WitnessBundle>, items: seq<WitnessBundle>)
    requires View(env) && Caught(env, mode, g, bundles, done) && Runs(env, mode, g, done + items)
    requires Absorb(bundles, items).Some? && DistinctBundles(bundles)
    ensures Caught(env, mode, g, Absorb(bundles, items).value, done + items) && DistinctBundles(Absorb(bundles, items).value)
    decreases items
  {
    hide View, Caught, Runs, BundleIdOf, AbsorbOne, DistinctBundles;
    if items == [] {
      assert done + items == done;
    } else {
      var wb, rest := items[0], items[1..];
      assert done + items == done + [wb] + rest;
      AbsorbOneRuns(env, mode, g, bundles, done, wb, rest);
      AbsorbRuns(env, mode, g, AbsorbOne(bundles, wb).value, done + [wb], rest);
    }
  }

  lemma {:induction false} AbsorbOneRuns(env: Env, mode: Mode, g: Genesis, bundles: seq<WitnessBundle>, done: seq<WitnessBundle>, wb: WitnessBundle, rest: seq<WitnessBundle>)
    requires View(env) && Caught(env, mode, g, bundles, done) && Runs(env, mode, g, done + [wb] + rest)
    requires AbsorbOne(bundles, wb).Some? && DistinctBundles(bundles)
    ensures Caught(env, mode, g, AbsorbOne(bundles, wb).value, done + [wb]) && DistinctBundles(AbsorbOne(bundles, wb).value)
  {
    hide View, Caught, Runs, BundleIdOf, MergeBundle, Find, BundleOf, Merging2, ValidBundle;
    FindMeans(bundles, BundleIdOf(wb));
    if Find(bundles, BundleIdOf(wb)).Some? {
      var p := Find(bundles, BundleIdOf(wb)).value;
      var m := MergeBundle(bundles[p], wb).value;
      ReadyToMerge(env, mode, g, bundles, done, wb, rest, p, m);
      ShareRuns(env, mode, g, bundles, done, wb, rest, p, m);
      MergeKeepsId(bundles[p], wb);
    } else {
      AppendRuns(env, mode, g, bundles, done, wb, rest);
    }
  }

  lemma {:induction false} ReadyToMerge(env: Env, mode: Mode, g: Genesis, bundles: seq<WitnessBundle>, done: seq<WitnessBundle>, wb: WitnessBundle,
                                        rest: seq<WitnessBundle>, p: nat, m: WitnessBundle)
    requires Caught(env, mode, g, bundles, done) && Runs(env, mode, g, done + [wb] + rest)
    requires p < |bundles| && MergeBundle(bundles[p], wb) == Some(m)
    ensures Merging2(bundles[p], wb, m)
  {
    hide RunAll, BundleIdOf, MergeBundle, DistinctKnown, ValidBundle, HeldBy, GenesisId, CanonicalGenesis, Ordered;
    AcceptedIsOrdered(env, mode, Told(g, bundles));
    RunsAreValid(env, mode, g, bundles, p);
    assert (done + [wb] + rest)[|done|] == wb;
    RunsAreValid(env, mode, g, done + [wb] + rest, |done|);
  }

  lemma {:induction false} RunsAreValid(env: Env, mode: Mode, g: Genesis, bundles: seq<WitnessBundle>, p: nat)
    requires Runs(env, mode, g, bundles) && p < |bundles|
    ensures ValidBundle(bundles[p])
  {
    hide RunAll, Safe, GenesisId, CanonicalGenesis, Start, Later, HostedBy, CanonicalTransition, FitToRun, SameKey, HoldsAll, HasEvent, SteadyKey;
    RunFacts(env, mode, g, bundles);
    assert RanBundle(env, GenesisId(g), LedgerOf(env, mode, g, bundles), bundles[p]);
    OpenedCommits(env, GenesisId(g), bundles[p]);
  }

  lemma {:induction false} OpenedCommits(env: Env, contract: Digest, wb: WitnessBundle)
    requires Open(env, false, contract, wb).Ok?
    ensures BundleOf(wb.bundle).Ok?
  {
    hide BundleOf, VerifyDBC, Mpc.Convolution, Resolved;
  }

  // ----- whole histories

  lemma {:induction false} StartsCaught(env: Env, mode: Mode, g: Genesis, bundles: seq<WitnessBundle>)
    requires Runs(env, mode, g, bundles)
    ensures Caught(env, mode, g, bundles, [])
  {
    hide RunAll, Safe, CanonicalConsignment, GenesisId, Start, FitToRun, SameKey, SteadyKey, Held, HostedBy, RanBundle, GenesisError, RunBundles, Extends;
    RunFacts(env, mode, g, bundles);
    assert [] + bundles == bundles;
    RunsPrefix(env, mode, g, [], bundles);
    RunsFromStart(env, mode, g, []);
    NothingRuns(env, mode, g);
  }

  lemma {:induction false} NothingRuns(env: Env, mode: Mode, g: Genesis)
    requires Start(g).Ok?
    ensures RunBundles(env, mode, GenesisId(g), [], First(g)) == Ok(First(g))
  {
    hide GenesisId;
  }

  /** Histories that run, of the genesis of the first. */
  ghost predicate AllRun(env: Env, mode: Mode, containers: seq<Option<Container>>) {
    forall i :: 0 <= i < |containers| && containers[i].Some? ==> Runs(env, mode, containers[i].value.value.genesis, containers[i].value.value.bundles)
  }

  lemma {:induction false} AbsorbAllRuns(env: Env, mode: Mode, base: Container, bundles: seq<WitnessBundle>, candidates: seq<Option<Container>>)
    requires View(env) && Runs(env, mode, base.value.genesis, bundles) && AllRun(env, mode, candidates) && DistinctBundles(bundles)
    requires AbsorbAll(base, bundles, candidates).Some?
    ensures Runs(env, mode, base.value.genesis, AbsorbAll(base, bundles, candidates).value)
    decreases candidates
  {
    hide View, Runs, Absorb, DistinctBundles, HeldBy;
    if candidates != [] {
      var g, items, rest := base.value.genesis, candidates[0].value.value.bundles, candidates[1..];
      StartsCaught(env, mode, g, bundles);
      assert [] + items == items;
      AbsorbRuns(env, mode, g, bundles, [], items);
      assert forall k :: 0 <= k < |rest| ==> rest[k] == candidates[k + 1];
      AbsorbAllRuns(env, mode, base, Absorb(bundles, items).value, rest);
    }
  }

  /** Whenever any number of histories, each accepted against one view of the chain, merge,
      their merge runs too. */
  lemma {:induction false} MergeRuns(env: Env, mode: Mode, containers: seq<Option<Container>>)
    requires View(env) && AllRun(env, mode, containers) && Merging(containers).Some?
    ensures Runs(env, mode, Merging(containers).value.genesis, Merging(containers).value.bundles)
  {
    hide View, Runs, AbsorbAll, DistinctBundles;
    var base, rest := containers[0].value, containers[1..];
    assert forall k :: 0 <= k < |rest| ==> rest[k] == containers[k + 1];
    AbsorbAllRuns(env, mode, base, base.value.bundles, rest);
  }

  lemma {:induction false} RunsAsHistory(env: Env, mode: Mode, c: Consignment)
    ensures Runs(env, mode, c.genesis, c.bundles) <==> !mode.allowPrepared && CanonicalConsignment(c) && RunAll(env, mode, c).Ok?
  {
    hide GenesisError, Start, RunBundles, GenesisId, CanonicalGenesis, CanonicalWitnessBundle;
  }

  /** The merge of histories that history validation accepts is accepted by history validation. */
  lemma {:induction false} MergeIsAccepted(env: Env, containers: seq<Option<Container>>)
    requires View(env) && Merging(containers).Some?
    requires forall i :: 0 <= i < |containers| && containers[i].Some? ==>
               CanonicalConsignment(containers[i].value.value) && EntryPoints.Accepted(env, EntryPoints.HISTORY, containers[i].value.value)
    ensures CanonicalConsignment(Merging(containers).value)
    ensures EntryPoints.Accepted(env, EntryPoints.HISTORY, Merging(containers).value)
  {
    hide View, Runs, RunAll, Merging, CanonicalConsignment;
    var mode, m := EntryPoints.HISTORY, Merging(containers).value;
    forall i | 0 <= i < |containers| && containers[i].Some?
      ensures Runs(env, mode, containers[i].value.value.genesis, containers[i].value.value.bundles)
    {
      EntryPoints.HistoryAccepted(env, containers[i].value.value);
      RunsAsHistory(env, mode, containers[i].value.value);
    }
    MergeRuns(env, mode, containers);
    RunsAsHistory(env, mode, m);
    NoTerminals(containers);
    EntryPoints.HistoryAccepted(env, m);
  }

  lemma {:induction false} NoTerminals(containers: seq<Option<Container>>)
    requires Merging(containers).Some?
    ensures Merging(containers).value.terminals == []
  {
    hide AbsorbAll, GoodBase;
  }
}
