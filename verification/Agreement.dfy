/** Two accepted histories of one contract, under one view of the chain, agree on
    every operation and on who spent every output. */
module Agreement {
  import opened Anchor
  import opened Bytes
  import opened Catalog
  import opened Commitments
  import opened Merkle
  import opened Operations
  import opened Outputs
  import opened Safety
  import opened Schemas
  import opened SchemaTotals
  import opened Symbols
  import opened Validator
  import opened Wrappers

  // ----- what is known of the bundle an accepted operation came in

  ghost predicate Confirms(r: Resolver, txid: Digest, tx: Tx) {
    && r.evidence(txid).Some?
    && r.evidence(txid).value.raw == Parsed(tx)
    && (r.evidence(txid).value.state.Tentative? || r.evidence(txid).value.state.Mined?)
  }

  /** The chain's rule: an outpoint is spent by at most one transaction that is
      mined or waiting to be. */
  ghost predicate OneSpender(r: Resolver) {
    forall a, b, x, y, o :: Confirms(r, a, x) && Confirms(r, b, y) && TxSpends(x, o) && TxSpends(y, o) ==> a == b
  }

  /** A bundle anchored in a transaction the chain confirms. */
  ghost predicate Genuine(env: Env, contract: Digest, o: Opened) {
    && CanonicalInputMap(o.inputMap) && o.id == BundleId(o.inputMap)
    && Anchored(env.crypto, o.closer.tx, o.mpc, o.dbc, contract, o.id)
    && env.resolver.Some? && Confirms(env.resolver.value, o.closer.txid, o.closer.tx)
  }

  ghost predicate CanonicalWitnessBundle(wb: WitnessBundle) {
    CanonicalBundle(wb.bundle) && Bounded(wb.dbc)
  }

  ghost predicate CanonicalConsignment(c: Consignment) {
    CanonicalGenesis(c.genesis) && forall i :: 0 <= i < |c.bundles| ==> CanonicalWitnessBundle(c.bundles[i])
  }

  /** A witness is confirmed by the chain under the id that was asked for; or, in
      prepared mode only, it is the embedded transaction. Archived ones never pass. */
  lemma {:induction false} ResolvedMeans(p: PubWitness, resolver: Option<Resolver>, allowPrepared: bool)
    requires Resolved(p, resolver, allowPrepared).Ok?
    ensures var w := Resolved(p, resolver, allowPrepared).value;
            && w.tx.txid == w.txid == (if p.Embedded? && p.embedded.Some? then p.embedded.value.txid else if p.Named? then p.txid else ZERO)
            && (w.state.Prepared? ==> allowPrepared && p.Embedded? && p.embedded == Some(w.tx))
            && (!w.state.Prepared? ==> resolver.Some? && Confirms(resolver.value, w.txid, w.tx))
            && (resolver.Some? && resolver.value.evidence(w.txid).Some? ==> !resolver.value.evidence(w.txid).value.state.Archived?)
  {
  }

  /** What a prepared witness spends is there, and unspent or spent by itself; only a
      history report does not ask for that. */
  lemma {:induction false} PreparedSpendsWhatIsThere(env: Env, mode: Mode, contract: Digest, l: Ledger, o: Opened, t: Transition, i: nat)
    requires Apply(env, mode, contract, l, o, t).Ok? && i < |t.inputs|
    requires o.closer.state.Prepared? && !(mode.historyOnly && mode.collecting)
    ensures t.inputs[i] in l.states && env.resolver.Some?
    ensures var evidence := env.resolver.value.outpoint(l.states[t.inputs[i]].outpoint);
            && evidence.Some? && evidence.value.known && evidence.value.present
            && (evidence.value.spent ==> evidence.value.spender == Some(o.closer.txid))
  {
    hide TransitionId, Validated, Register;
    InputPasses(env, mode, l, o, TransitionId(t), t.inputs, i);
  }

  lemma {:induction false} InputPasses(env: Env, mode: Mode, l: Ledger, o: Opened, op: Digest, inputs: seq<InputRef>, i: nat)
    requires InputsError(env, mode, l, o, op, inputs) == None && i < |inputs|
    ensures InputError(env, mode, l, o, op, inputs[i]) == None
  {
    hide InputError;
    if i > 0 {
      InputPasses(env, mode, l, o, op, inputs[1..], i - 1);
    }
  }

  lemma {:induction false} StepsCanonical(env: Env, mode: Mode, contract: Digest, bundles: seq<WitnessBundle>)
    requires forall i :: 0 <= i < |bundles| ==> CanonicalWitnessBundle(bundles[i])
    ensures CanonicalSteps(AllSteps(env, mode, contract, bundles))
  {
    hide CanonicalTransition, BundleId, VerifyDBC, Mpc.Convolution, KnownError, Resolved;
    if bundles != [] && Open(env, mode.allowPrepared, contract, bundles[0]).Ok? {
      var o := Open(env, mode.allowPrepared, contract, bundles[0]).value;
      assert CanonicalWitnessBundle(bundles[0]);
      assert o.transitions == Transitions(bundles[0].bundle.known);
      forall i | 0 <= i < |o.transitions| ensures CanonicalTransition(o.transitions[i]) {
        assert o.transitions[i] == bundles[0].bundle.known[i].transition;
      }
      assert forall i :: 0 <= i < |bundles[1..]| ==> bundles[1..][i] == bundles[i + 1];
      StepsCanonical(env, mode, contract, bundles[1..]);
    }
  }

  /** Every accepted run, in every mode, is safe. */
  lemma {:induction false} RunIsSafe(env: Env, mode: Mode, c: Consignment)
    requires CanonicalConsignment(c) && RunAll(env, mode, c).Ok?
    ensures Safe(c.genesis, RunAll(env, mode, c).value.ledger)
  {
    hide GenesisId, RunBundles, Start, GenesisError, Safe;
    var contract := GenesisId(c.genesis);
    StepsCanonical(env, mode, contract, c.bundles);
    RunReplays(env, mode, contract, c.bundles, Run(Start(c.genesis).value, map[], true));
    RunsAreSafe(env, mode, c.genesis, AllSteps(env, mode, contract, c.bundles));
  }

  lemma {:induction false} OpenGenuine(env: Env, contract: Digest, wb: WitnessBundle)
    requires CanonicalWitnessBundle(wb) && Open(env, false, contract, wb).Ok?
    ensures var o := Open(env, false, contract, wb).value;
            Genuine(env, contract, o)
  {
    hide BundleId, VerifyDBC, Mpc.Convolution, CanonicalTransition, KnownError, Resolved;
    ResolvedMeans(wb.pub, env.resolver, false);
  }

  ghost predicate GenuineSteps(env: Env, contract: Digest, steps: seq<Step>) {
    forall i :: 0 <= i < |steps| ==> Genuine(env, contract, steps[i].host)
  }

  lemma {:induction false} StepsGenuine(env: Env, mode: Mode, contract: Digest, bundles: seq<WitnessBundle>)
    requires !mode.allowPrepared && forall i :: 0 <= i < |bundles| ==> CanonicalWitnessBundle(bundles[i])
    ensures GenuineSteps(env, contract, AllSteps(env, mode, contract, bundles))
  {
    hide Open, Genuine, CanonicalTransition, CanonicalWitnessBundle;
    if bundles != [] && Open(env, false, contract, bundles[0]).Ok? {
      var o := Open(env, false, contract, bundles[0]).value;
      assert CanonicalWitnessBundle(bundles[0]);
      OpenGenuine(env, contract, bundles[0]);
      assert forall i :: 0 <= i < |bundles[1..]| ==> bundles[1..][i] == bundles[i + 1];
      StepsGenuine(env, mode, contract, bundles[1..]);
    }
  }

  ghost predicate GenuineLog(env: Env, contract: Digest, log: seq<Event>) {
    forall i :: 0 <= i < |log| ==> Genuine(env, contract, log[i].host)
  }

  lemma {:induction false} LogGenuine(env: Env, mode: Mode, contract: Digest, l: Ledger, steps: seq<Step>)
    requires GenuineLog(env, contract, l.log) && GenuineSteps(env, contract, steps) && Replay(env, mode, contract, l, steps).Ok?
    ensures GenuineLog(env, contract, Replay(env, mode, contract, l, steps).value.log)
    decreases steps
  {
    hide Apply, Genuine, TransitionId;
    if steps != [] {
      Applied(env, mode, contract, l, steps[0].host, steps[0].transition);
      assert Genuine(env, contract, steps[0].host);
      assert forall i :: 0 <= i < |steps[1..]| ==> steps[1..][i] == steps[i + 1];
      LogGenuine(env, mode, contract, Apply(env, mode, contract, l, steps[0].host, steps[0].transition).value, steps[1..]);
    }
  }

  // ----- the same assignment is sealed in the same place

  lemma {:induction false} OfConcealed(es: seq<Entry>, ty: nat)
    ensures Of(ConcealedEntries(es), ty) == ConcealedAll(Of(es, ty))
  {
    if es != [] {
      OfConcealed(es[1..], ty);
      assert ConcealedEntries(es)[1..] == ConcealedEntries(es[1..]);
    }
  }

  lemma {:induction false} OfCanonical(es: seq<Entry>, ty: nat, no: nat)
    requires CanonicalEntries(es) && no < |Of(es, ty)|
    ensures Of(es, ty)[no].Revealed? ==> CanonicalSeal(Of(es, ty)[no].seal)
  {
    assert CanonicalEntry(es[0]);
    if es[0].ty == ty {
      assert CanonicalAssignment(es[0].kind, es[0].assigns[no]);
    } else {
      RestCanonical(es);
      OfCanonical(es[1..], ty, no);
    }
  }

  /** Two disclosures of one committed output show the same seal and state. */
  lemma {:induction false} SameAssignment(es: seq<Entry>, fs: seq<Entry>, ty: nat, no: nat)
    requires CanonicalEntries(es) && CanonicalEntries(fs) && ConcealedEntries(es) == ConcealedEntries(fs)
    requires IsRevealed(es, ty, no) && IsRevealed(fs, ty, no)
    ensures Of(es, ty)[no] == Of(fs, ty)[no]
  {
    hide Conceal;
    OfConcealed(es, ty);
    OfConcealed(fs, ty);
    var a, b := Of(es, ty)[no], Of(fs, ty)[no];
    assert ConcealedAll(Of(es, ty))[no] == Concealed(a) && ConcealedAll(Of(fs, ty))[no] == Concealed(b);
    OfCanonical(es, ty, no);
    OfCanonical(fs, ty, no);
    ConcealInjective(a.seal, b.seal);
  }

  /** The one assignment that masks others quotes a tree node as its secret, and
      no seal conceals to that: it is never disclosed. */
  lemma {:induction false} MaskIsHidden(es: seq<Entry>, others: seq<Entry>)
    requires EntriesMask(es, others)
    ensures forall ty, no :: !IsRevealed(es, ty, no)
  {
    hide Records;
    MaskType(es, others);
    var leaves := Leaves(Records(others));
    var n := TopNode(leaves, 0, |leaves|);
    assert n.2.Hash? && n.2.tag == MerkleNode;
    assert ConcealedEntries(es)[0].assigns == ConcealedAll(es[0].assigns);
    assert |es[0].assigns| == 1 && ConcealedAll(es[0].assigns)[0] == Concealed(es[0].assigns[0]);
    assert es[0].assigns[0].Confidential?;
    assert es[1..] == [];
    forall ty, no: nat ensures !IsRevealed(es, ty, no) {
      assert Of(es, ty) == if es[0].ty == ty then es[0].assigns else Of([], ty);
    }
  }

  /** So whenever two lists have one root and disclose the same output, they agree on it. */
  lemma {:induction false} BothRevealed(es: seq<Entry>, fs: seq<Entry>, ty: nat, no: nat)
    requires SameEntries(es, fs) && IsRevealed(es, ty, no) && IsRevealed(fs, ty, no)
    ensures ConcealedEntries(es) == ConcealedEntries(fs)
  {
    hide EntriesMask, IsRevealed;
    if EntriesMask(es, fs) { MaskIsHidden(es, fs); }
    if EntriesMask(fs, es) { MaskIsHidden(fs, es); }
  }

  lemma {:induction false} SamePlace(es: seq<Entry>, fs: seq<Entry>, txid: Digest, ref: InputRef, p: Placed, q: Placed)
    requires CanonicalEntries(es) && CanonicalEntries(fs) && SameEntries(es, fs)
    requires From(es, txid, ref, p) && From(fs, txid, ref, q)
    ensures p == q
  {
    hide Placing, IsRevealed, SameEntries;
    BothRevealed(es, fs, ref.ty, ref.no);
    SameAssignment(es, fs, ref.ty, ref.no);
  }

  // ----- one view of the chain

  /** Two histories of one contract, validated against the same chain. */
  ghost predicate OneView(e: Env, g: Genesis, l: Ledger, f: Env, h: Genesis, m: Ledger) {
    && e.crypto == f.crypto && TotalOrder(e.crypto.less)
    && e.resolver == f.resolver && e.resolver.Some? && OneSpender(e.resolver.value)
    && CanonicalGenesis(g) && CanonicalGenesis(h) && GenesisId(g) == GenesisId(h)
    && Safe(g, l) && Safe(h, m)
    && GenuineLog(e, GenesisId(g), l.log) && GenuineLog(f, GenesisId(h), m.log)
  }

  /** Two bundles that close one seal are in one transaction, hence are one bundle. */
  lemma {:induction false} SameCloser(e: Env, f: Env, contract: Digest, o: Opened, n: Opened, outpoint: Outpoint)
    requires e.crypto == f.crypto && TotalOrder(e.crypto.less)
    requires e.resolver == f.resolver && e.resolver.Some? && OneSpender(e.resolver.value)
    requires Genuine(e, contract, o) && Genuine(f, contract, n)
    requires TxSpends(o.closer.tx, outpoint) && TxSpends(n.closer.tx, outpoint)
    ensures o.closer.txid == n.closer.txid && o.id == n.id
  {
    hide Anchored, BundleId, CanonicalInputMap, TotalOrder;
    assert o.closer.txid == n.closer.txid;
    OneBundlePerWitness(e.crypto, o.closer.tx, contract, o.mpc, o.dbc, o.id, n.mpc, n.dbc, n.id);
  }

  /** What the `k`-th input of an event spent, closed by its witness. */
  lemma {:induction false} ClosedBy(g: Genesis, l: Ledger, i: nat, k: nat)
    requires Safe(g, l) && i < |l.log| && k < |l.log[i].transition.inputs|
    ensures SoundEvent(l.log[i])
    ensures Origin(g, l.log[..i], l.log[i].transition.inputs[k], l.log[i].spent[k])
    ensures TxSpends(l.log[i].host.closer.tx, l.log[i].spent[k].outpoint)
    ensures InputMapCommits(l.log[i].host.inputMap, l.log[i].transition.inputs[k], l.log[i].op)
  {
    hide TransitionId, GenesisId, CanonicalTransition, TxSpends, InputMapCommits, Origin, SingleUse, Graphed, Bundled;
    assert SoundEvent(l.log[i]);
  }

  lemma {:induction false} GenesisMakes(g: Genesis, l: Ledger, n: nat, ref: InputRef, p: Placed)
    requires Safe(g, l) && n <= |l.log| && Origin(g, l.log[..n], ref, p)
    ensures ref.op == GenesisId(g) ==> From(g.assignments, ZERO, ref, p)
    ensures ref.op != GenesisId(g) ==> exists j :: 0 <= j < n && Makes(l.log[j], ref, p)
  {
    hide GenesisId, From, SingleUse, Traced, Bundled, SoundLog, HasNode;
    if !(ref.op == GenesisId(g) && From(g.assignments, ZERO, ref, p)) {
      var j :| 0 <= j < |l.log[..n]| && Makes(l.log[..n][j], ref, p);
      assert l.log[..n][j] == l.log[j];
      assert l.log[j].op != GenesisId(g);
    }
  }

  /** The two histories place an output they both spend in the same outpoint. */
  lemma {:induction false} SameOutput(e: Env, g: Genesis, l: Ledger, i: nat, p: Placed, f: Env, h: Genesis, m: Ledger, j: nat, q: Placed, ref: InputRef)
    requires OneView(e, g, l, f, h, m) && i <= |l.log| && j <= |m.log|
    requires Origin(g, l.log[..i], ref, p) && Origin(h, m.log[..j], ref, q)
    ensures p == q
    decreases i, 0
  {
    hide GenesisId, TransitionId, Safe, Genuine, CanonicalTransition, CanonicalGenesis, From, Origin, OneSpender, TotalOrder;
    GenesisMakes(g, l, i, ref, p);
    GenesisMakes(h, m, j, ref, q);
    if ref.op == GenesisId(g) {
      SameGenesisPlace(g, h, ref, p, q);
    } else {
      var a :| 0 <= a < i && Makes(l.log[a], ref, p);
      var b :| 0 <= b < j && Makes(m.log[b], ref, q);
      SameOperation(e, g, l, a, f, h, m, b);
      SameTransitionPlace(g, l, a, h, m, b, ref, p, q);
    }
  }

  lemma {:induction false} SameGenesisPlace(g: Genesis, h: Genesis, ref: InputRef, p: Placed, q: Placed)
    requires CanonicalGenesis(g) && CanonicalGenesis(h) && GenesisId(g) == GenesisId(h)
    requires From(g.assignments, ZERO, ref, p) && From(h.assignments, ZERO, ref, q)
    ensures p == q
  {
    hide GenesisId, From, SameEntries, SameGlobals;
    GenesisIdExact(g, h);
    SamePlace(g.assignments, h.assignments, ZERO, ref, p, q);
  }

  lemma {:induction false} SameTransitionPlace(g: Genesis, l: Ledger, a: nat, h: Genesis, m: Ledger, b: nat, ref: InputRef, p: Placed, q: Placed)
    requires Safe(g, l) && Safe(h, m) && a < |l.log| && b < |m.log|
    requires Makes(l.log[a], ref, p) && Makes(m.log[b], ref, q)
    requires l.log[a].host.closer.txid == m.log[b].host.closer.txid
    ensures p == q
  {
    hide GenesisId, TransitionId, From, CanonicalEntries, SingleUse, Graphed, Traced, Bundled, SameEntries, SameGlobals;
    var x, y := l.log[a], m.log[b];
    assert SoundEvent(x) && SoundEvent(y);
    TransitionIdExact(x.transition, y.transition);
    SamePlace(x.transition.assignments, y.transition.assignments, x.host.closer.txid, ref, p, q);
  }

  /** Agreement on operations: an operation in both histories came in the same
      bundle and was witnessed by the same transaction. */
  lemma {:induction false} SameOperation(e: Env, g: Genesis, l: Ledger, i: nat, f: Env, h: Genesis, m: Ledger, j: nat)
    requires OneView(e, g, l, f, h, m) && i < |l.log| && j < |m.log| && l.log[i].op == m.log[j].op
    ensures l.log[i].host.closer.txid == m.log[j].host.closer.txid && l.log[i].host.id == m.log[j].host.id
    decreases i, 1
  {
    hide GenesisId, TransitionId, Safe, CanonicalTransition, Origin, OneSpender, TotalOrder, Genuine, TxSpends, InputMapCommits, SameEntries, SameGlobals;
    assert SoundEvent(l.log[i]) by { SafeParts(g, l); }
    assert SoundEvent(m.log[j]) by { SafeParts(h, m); }
    ClosedBy(g, l, i, 0);
    TransitionIdExact(l.log[i].transition, m.log[j].transition);
    ClosedBy(h, m, j, 0);
    SameOutput(e, g, l, i, l.log[i].spent[0], f, h, m, j, m.log[j].spent[0], l.log[i].transition.inputs[0]);
    SameCloser(e, f, GenesisId(g), l.log[i].host, m.log[j].host, l.log[i].spent[0].outpoint);
  }

  /** Agreement on spends: an output spent in both histories is spent by the same operation. */
  lemma {:induction false} SameConsumer(e: Env, g: Genesis, l: Ledger, i: nat, f: Env, h: Genesis, m: Ledger, j: nat, ref: InputRef)
    requires OneView(e, g, l, f, h, m) && i < |l.log| && j < |m.log|
    requires Spends(l.log[i], ref) && Spends(m.log[j], ref)
    ensures l.log[i].op == m.log[j].op
  {
    hide GenesisId, TransitionId, Safe, CanonicalTransition, Origin, OneSpender, TotalOrder, Genuine, TxSpends, InputMapCommits;
    var a :| 0 <= a < |l.log[i].transition.inputs| && l.log[i].transition.inputs[a] == ref;
    var b :| 0 <= b < |m.log[j].transition.inputs| && m.log[j].transition.inputs[b] == ref;
    ClosedBy(g, l, i, a);
    ClosedBy(h, m, j, b);
    SameOutput(e, g, l, i, l.log[i].spent[a], f, h, m, j, m.log[j].spent[b], ref);
    SameCloser(e, f, GenesisId(g), l.log[i].host, m.log[j].host, l.log[i].spent[a].outpoint);
    OneConsumer(e, f, GenesisId(g), l.log[i].host, m.log[j].host, ref, l.log[i].op, m.log[j].op);
  }

  lemma {:induction false} OneConsumer(e: Env, f: Env, contract: Digest, o: Opened, n: Opened, ref: InputRef, a: Digest, b: Digest)
    requires Genuine(e, contract, o) && Genuine(f, contract, n) && o.id == n.id
    requires InputMapCommits(o.inputMap, ref, a) && InputMapCommits(n.inputMap, ref, b)
    ensures a == b
  {
    hide BundleId, Anchored, Confirms;
    OneOperationPerInput(o.inputMap, n.inputMap, ref, a, b);
  }

  // ----- for whole consignments

  /** An accepted consignment, with the history it was accepted as. */
  ghost predicate Accepts(env: Env, mode: Mode, c: Consignment, l: Ledger) {
    !mode.allowPrepared && CanonicalConsignment(c) && RunAll(env, mode, c).Ok? && RunAll(env, mode, c).value.ledger == l
  }

  lemma {:induction false} AcceptedHistory(env: Env, mode: Mode, c: Consignment, l: Ledger)
    requires Accepts(env, mode, c, l)
    ensures Safe(c.genesis, l) && GenuineLog(env, GenesisId(c.genesis), l.log)
  {
    hide GenesisId, RunBundles, Start, GenesisError, Safe, Genuine;
    RunIsSafe(env, mode, c);
    var contract := GenesisId(c.genesis);
    var steps := AllSteps(env, mode, contract, c.bundles);
    var start := Start(c.genesis).value;
    RunReplays(env, mode, contract, c.bundles, Run(start, map[], true));
    StepsGenuine(env, mode, contract, c.bundles);
    StartsEmpty(c.genesis);
    LogGenuine(env, mode, contract, start, steps);
  }

  lemma {:induction false} StartsEmpty(g: Genesis)
    requires Start(g).Ok?
    ensures Start(g).value.log == []
  {
  }

  /** Agreement across histories: whatever two consignments of one contract are
      accepted against one chain view without double spends, no operation they
      share has two witnesses or bundles, and no output they both spend has two spenders. */
  lemma {:induction false} HistoriesAgree(e: Env, x: Mode, c: Consignment, l: Ledger, f: Env, y: Mode, d: Consignment, m: Ledger)
    requires Accepts(e, x, c, l) && Accepts(f, y, d, m) && GenesisId(c.genesis) == GenesisId(d.genesis)
    requires e.crypto == f.crypto && TotalOrder(e.crypto.less)
    requires e.resolver == f.resolver && e.resolver.Some? && OneSpender(e.resolver.value)
    ensures forall i, j :: 0 <= i < |l.log| && 0 <= j < |m.log| && l.log[i].op == m.log[j].op ==>
              l.log[i].host.closer.txid == m.log[j].host.closer.txid && l.log[i].host.id == m.log[j].host.id
    ensures forall i, j, ref :: 0 <= i < |l.log| && 0 <= j < |m.log| && Spends(l.log[i], ref) && Spends(m.log[j], ref) ==>
              l.log[i].op == m.log[j].op
  {
    hide GenesisId, RunAll, Safe, GenuineLog, CanonicalGenesis, Spends;
    AcceptedHistory(e, x, c, l);
    AcceptedHistory(f, y, d, m);
    assert OneView(e, c.genesis, l, f, d.genesis, m);
    forall i, j | 0 <= i < |l.log| && 0 <= j < |m.log| && l.log[i].op == m.log[j].op
      ensures l.log[i].host.closer.txid == m.log[j].host.closer.txid && l.log[i].host.id == m.log[j].host.id
    {
      SameOperation(e, c.genesis, l, i, f, d.genesis, m, j);
    }
    forall i, j, ref | 0 <= i < |l.log| && 0 <= j < |m.log| && Spends(l.log[i], ref) && Spends(m.log[j], ref)
      ensures l.log[i].op == m.log[j].op
    {
      SameConsumer(e, c.genesis, l, i, f, d.genesis, m, j, ref);
    }
  }
}
