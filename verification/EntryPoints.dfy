/** Validation from a container to a verdict, in each of its modes. */
module EntryPoints {
  import opened Agreement
  import opened Ancestors
  import opened Bytes
  import opened Catalog
  import opened Operations
  import opened Outputs
  import opened Report
  import opened Safety
  import opened Schemas
  import opened SchemaPrograms
  import opened Symbols
  import opened Validation
  import opened Validator
  import opened Wrappers

  const VALIDATE: Mode := Mode(false, false, false)
  const HISTORY: Mode := Mode(false, true, false)
  const REPORT: Mode := Mode(false, true, true)
  const PREPARED: Mode := Mode(true, false, false)
  const PREPARED_REPORT: Mode := Mode(true, true, true)

  datatype Verdict = Verdict(current: seq<Current>, history: Option<HistoryReport>, preparedValid: bool, consensusValid: bool)

  predicate GenesisOnly(c: Consignment) {
    !c.transfer && c.bundles == [] && c.terminals == []
  }

  ghost predicate UnknownTerminal(c: Consignment, run: Run) {
    c.transfer && exists b :: b in c.terminals && OpsOf(run.ledger.bundleOps, b) == []
  }

  ghost predicate SearchedIn(c: Consignment, run: Run, historical: set<Digest>, selected: set<Digest>) {
    Searched(c.transfer, c.terminals, run.ledger.graph, run.ledger.bundleOps, run.complete, historical, selected)
  }

  /** What is asked of the outputs that are left, depending on the mode. */
  ghost predicate OutputsPass(env: Env, mode: Mode, c: Consignment, run: Run, historical: set<Digest>, selected: set<Digest>) {
    if mode.historyOnly then
      mode.collecting ==> forall ref :: !MissingOutput(run.ledger.states, selected, run.prepared, ref)
    else
      forall ref :: ref in run.ledger.states ==>
        Stands(env.resolver, run.prepared, Excused(c, historical, ref), run.ledger.states[ref].outpoint)
  }

  /** Outputs that may be spent on the chain: of historical operations, and those of genesis
      when a container, no transfer, has no more than its genesis. */
  ghost predicate Excused(c: Consignment, historical: set<Digest>, ref: InputRef) {
    ref.op in historical || (!c.transfer && c.bundles == [] && c.terminals == [] && ref.op == GenesisId(c.genesis))
  }

  /** Why the outputs do not pass: the error of one that does not. */
  ghost predicate OutputFails(env: Env, mode: Mode, c: Consignment, run: Run, historical: set<Digest>, selected: set<Digest>, ref: InputRef, e: Failure) {
    if mode.historyOnly then mode.collecting && MissingOutput(run.ledger.states, selected, run.prepared, ref) && e == OutpointUnknown
    else ref in run.ledger.states && Falls(env.resolver, run.prepared, Excused(c, historical, ref), run.ledger.states[ref].outpoint, e)
  }

  /** The error of a container whose history runs: a terminal is unknown, or an output does not pass. */
  ghost predicate RefusedFor(env: Env, mode: Mode, c: Consignment, run: Run, e: Failure) {
    if UnknownTerminal(c, run) then e == Uncommitted(InvalidBundle)
    else exists historical, selected, ref :: SearchedIn(c, run, historical, selected) && OutputFails(env, mode, c, run, historical, selected, ref, e)
  }

  /** The container is accepted: its history runs, its terminals are known, its outputs pass. */
  ghost predicate Accepted(env: Env, mode: Mode, c: Consignment) {
    && RunAll(env, mode, c).Ok? && !UnknownTerminal(c, RunAll(env, mode, c).value)
    && exists historical, selected ::
         SearchedIn(c, RunAll(env, mode, c).value, historical, selected) &&
         OutputsPass(env, mode, c, RunAll(env, mode, c).value, historical, selected)
  }

  /** A history report holds exactly the material of the selected operations. */
  ghost predicate Reports(env: Env, mode: Mode, c: Consignment, run: Run, selected: set<Digest>, report: HistoryReport) {
    && report.consumers == Consumptions(run.ledger.log)
    && Ascending(env.crypto.less, report.historical)
    && (if run.complete then forall ref, p :: Reported(report.historical, ref, p) <==> Material(run.ledger, selected, ref, p)
        else report.historical == [])
    && (forall h :: h in report.historical ==> CreatedIn(WitnessStates(run.ledger.log), h.output, h.created))
    && (forall x :: x in report.prepared <==> PreparedState(run.ledger.states, selected, run.prepared, x))
  }

  ghost predicate Reported(historical: seq<Historical>, ref: InputRef, p: Placed) {
    exists h :: h in historical && h.reference == ref && h.output == p
  }

  ghost predicate Material(l: Ledger, selected: set<Digest>, ref: InputRef, p: Placed) {
    SpentBySelected(l.log, selected, ref, p) || LiveOf(l.states, selected, ref, p)
  }

  lemma {:induction false} ReportIsExact(env: Env, mode: Mode, c: Consignment, run: Run, selected: set<Digest>, report: HistoryReport)
    requires Safe(c.genesis, run.ledger)
    requires report.consumers == Consumptions(run.ledger.log) && Ascending(env.crypto.less, report.historical)
    requires Found(Consumptions(run.ledger.log), run.ledger.states, selected, WitnessStates(run.ledger.log), report.historical)
    requires run.complete ==> forall ref, p ::
               ConsumedBy(Consumptions(run.ledger.log), selected, ref, p) || LiveOf(run.ledger.states, selected, ref, p) ==> Covers(report.historical, ref)
    requires !run.complete ==> report.historical == []
    requires forall x :: x in report.prepared <==> PreparedState(run.ledger.states, selected, run.prepared, x)
    ensures Reports(env, mode, c, run, selected, report)
  {
    hide Safe, SpentBySelected, ConsumedBy, Covers, Consumptions, WitnessStates, LiveOf, Ascending, PreparedState;
    if run.complete {
      forall ref, p ensures Reported(report.historical, ref, p) <==> Material(run.ledger, selected, ref, p) {
        HistoricalIsExact(c.genesis, run.ledger, selected, WitnessStates(run.ledger.log), report.historical, ref, p);
      }
    }
  }

  /** The search has one answer. */
  lemma {:induction false} SearchedOnce(transfer: bool, terminals: seq<Digest>, graph: Graph, bundleOps: map<Digest, seq<Digest>>, complete: bool,
                     historical: set<Digest>, selected: set<Digest>, historical': set<Digest>, selected': set<Digest>)
    requires Searched(transfer, terminals, graph, bundleOps, complete, historical, selected)
    requires Searched(transfer, terminals, graph, bundleOps, complete, historical', selected')
    ensures historical == historical' && selected == selected'
  {
    hide Ancestor;
    if transfer {
      var p, s :| SearchedFrom(terminals, graph, bundleOps, complete, p, s) && Finds(graph, p, s, historical, selected);
      var q, t :| SearchedFrom(terminals, graph, bundleOps, complete, q, t) && Finds(graph, q, t, historical', selected');
      assert p == q;
      assert s == t by {
        forall op ensures op in s <==> op in t {}
      }
    }
  }

  /** The history of a container, run from its genesis. */
  method RunHistory(env: Env, mode: Mode, c: Consignment) returns (refused: Option<Failure>, history: History)
    ensures fresh(history) && fresh(history.collector)
    ensures refused.Some? ==> RunAll(env, mode, c) == Err(refused.value)
    ensures refused.None? ==> RunAll(env, mode, c) == Ok(history.Now())
    ensures refused.None? && mode.collecting ==> history.collector.Tells(history.log)
  {
    hide Replay, RunBundles, GenesisId, GenesisError, Register;
    var contract := GenesisId(c.genesis);
    history := new History(env, mode, contract);
    var invalid := ValidateGenesis(env.schema, env.types, c.genesis);
    if invalid.Some? {
      return Some(ContainerType), history;
    }
    refused := history.RegisterOutputs(contract, c.genesis.assignments, ZERO);
    if refused.Some? {
      return refused, history;
    }
    history.AppendOperationGlobals(c.genesis.globals);
    assert Start(c.genesis) == Ok(history.Abstract());
    refused := history.ApplyBundles(c.bundles);
  }

  /** What a verdict holds. */
  ghost predicate Delivers(env: Env, mode: Mode, c: Consignment, run: Run, historical: set<Digest>, selected: set<Digest>, v: Verdict) {
    && SearchedIn(c, run, historical, selected)
    && v.consensusValid == (!mode.historyOnly && run.prepared == map[])
    && v.preparedValid == (!mode.historyOnly && run.prepared != map[])
    && (mode.historyOnly ==> v.current == [])
    && (!mode.historyOnly ==> forall x :: x in v.current <==> CurrentState(env.resolver, run.prepared, run.ledger.states, x))
    && (mode.historyOnly && mode.collecting ==>
          v.history.Some? && (CanonicalConsignment(c) ==> Reports(env, mode, c, run, selected, v.history.value)))
  }

  /** The part after the run: the search behind the tips, then reports or current states. */
  method Conclude(env: Env, mode: Mode, c: Consignment, history: History, ghost run: Run) returns (r: Result<Verdict, Failure>)
    requires TotalOrder(env.crypto.less)
    requires run == history.Now() && (mode.collecting ==> history.collector.Tells(history.log))
    requires RunAll(env, mode, c) == Ok(run)
    ensures CanonicalConsignment(c) ==> (r.Ok? <==> Accepted(env, mode, c))
    ensures CanonicalConsignment(c) && r.Err? ==> RefusedFor(env, mode, c, run, r.error)
    ensures r.Ok? ==> exists historical, selected :: Delivers(env, mode, c, run, historical, selected, r.value)
  {
    hide RunAll, GenesisId, Safe, Searched, Reports, Accepted, CanonicalConsignment, RefusedFor, UnknownTerminal, StandsAsLive, FallsAsLive;
    if CanonicalConsignment(c) {
      RunIsSafe(env, mode, c);
      GraphIsClosed(c.genesis, run.ledger);
    }
    TerminalsAre(c, run);
    var search, selected := HistoricalSideOps(c.transfer, c.terminals, history.graph, history.bundleOps, history.complete);
    if search.Err? {
      UnknownRefused(env, mode, c, run);
      return Err(search.error);
    }
    OneVerdict(env, mode, c, run, search.value, selected);
    if mode.historyOnly {
      if !mode.collecting {
        r := Ok(Verdict([], None, false, false));
        assert Delivers(env, mode, c, run, search.value, selected, r.value);
        return;
      }
      var finished := Finish(history.collector, selected, history.states, history.prepared, history.complete, env.crypto.less);
      if finished.Err? {
        ghost var ref :| MissingOutput(run.ledger.states, selected, run.prepared, ref);
        FailsWith(env, mode, c, run, search.value, selected, ref, finished.error);
        return Err(finished.error);
      }
      if CanonicalConsignment(c) {
        ReportIsExact(env, mode, c, run, selected, finished.value);
      }
      r := Ok(Verdict([], Some(finished.value), false, false));
      assert Delivers(env, mode, c, run, search.value, selected, r.value);
      return;
    }
    var current := CurrentStates(env.resolver, history.prepared, search.value, GenesisOnly(c), GenesisId(c.genesis), history.states);
    LiveOutputs(env, mode, c, run, search.value, selected);
    if current.Err? {
      ghost var ref :| FallsAsLive(env.resolver, run.prepared, search.value, GenesisOnly(c), GenesisId(c.genesis), run.ledger.states, ref, current.error);
      FailsWith(env, mode, c, run, search.value, selected, ref, current.error);
      return Err(current.error);
    }
    r := Ok(Verdict(current.value, None, history.prepared != map[], history.prepared == map[]));
    assert Delivers(env, mode, c, run, search.value, selected, r.value);
  }

  lemma {:induction false} UnknownRefused(env: Env, mode: Mode, c: Consignment, run: Run)
    requires RunAll(env, mode, c) == Ok(run)
    ensures UnknownTerminal(c, run) ==> !Accepted(env, mode, c) && RefusedFor(env, mode, c, run, Uncommitted(InvalidBundle))
  {
  }

  lemma {:induction false} TerminalsAre(c: Consignment, run: Run)
    ensures UnknownTerminal(c, run) <==> c.transfer && exists b :: b in c.terminals && OpsOf(run.ledger.bundleOps, b) == []
  {
  }

  lemma {:induction false} FailsWith(env: Env, mode: Mode, c: Consignment, run: Run, historical: set<Digest>, selected: set<Digest>, ref: InputRef, e: Failure)
    requires SearchedIn(c, run, historical, selected) && OutputFails(env, mode, c, run, historical, selected, ref, e)
    ensures !UnknownTerminal(c, run) ==> RefusedFor(env, mode, c, run, e)
    ensures !OutputsPass(env, mode, c, run, historical, selected)
  {
    hide Searched, GenesisId;
  }

  /** What CurrentStates asks of the live outputs is what the mode asks of them. */
  lemma {:induction false} LiveOutputs(env: Env, mode: Mode, c: Consignment, run: Run, historical: set<Digest>, selected: set<Digest>)
    requires !mode.historyOnly
    ensures OutputsPass(env, mode, c, run, historical, selected) <==>
            forall ref :: StandsAsLive(env.resolver, run.prepared, historical, GenesisOnly(c), GenesisId(c.genesis), run.ledger.states, ref)
    ensures forall ref, e :: OutputFails(env, mode, c, run, historical, selected, ref, e) <==>
            FallsAsLive(env.resolver, run.prepared, historical, GenesisOnly(c), GenesisId(c.genesis), run.ledger.states, ref, e)
  {
    hide GenesisId, Stands, Falls;
    forall ref ensures Excused(c, historical, ref) <==> IsHistory(historical, GenesisOnly(c), GenesisId(c.genesis), ref) {
    }
    assert OutputsPass(env, mode, c, run, historical, selected) <==> forall ref :: ref in run.ledger.states ==>
      StandsAsLive(env.resolver, run.prepared, historical, GenesisOnly(c), GenesisId(c.genesis), run.ledger.states, ref);
  }

  /** The entry point behind all modes: a container is accepted exactly when its
      history runs, its terminals are known and its outputs pass, and then the
      verdict shows what the mode asks for. */
  method ValidateWithHistoryReport(env: Env, mode: Mode, c: Consignment) returns (r: Result<Verdict, Failure>)
    requires TotalOrder(env.crypto.less)
    ensures RunAll(env, mode, c).Err? ==> r == Err(RunAll(env, mode, c).error)
    ensures CanonicalConsignment(c) ==> (r.Ok? <==> Accepted(env, mode, c))
    ensures CanonicalConsignment(c) && RunAll(env, mode, c).Ok? && r.Err? ==> RefusedFor(env, mode, c, RunAll(env, mode, c).value, r.error)
    ensures r.Ok? && RunAll(env, mode, c).Ok? ==>
              exists historical, selected :: Delivers(env, mode, c, RunAll(env, mode, c).value, historical, selected, r.value)
  {
    hide RunAll, Delivers, CanonicalConsignment, RefusedFor;
    var refused, history := RunHistory(env, mode, c);
    if refused.Some? {
      return Err(refused.value);
    }
    r := Conclude(env, mode, c, history, history.Now());
  }

  lemma {:induction false} OneVerdict(env: Env, mode: Mode, c: Consignment, run: Run, historical: set<Digest>, selected: set<Digest>)
    requires RunAll(env, mode, c) == Ok(run) && SearchedIn(c, run, historical, selected)
    ensures Accepted(env, mode, c) <==> !UnknownTerminal(c, run) && OutputsPass(env, mode, c, run, historical, selected)
  {
    hide RunAll, OutputsPass, Searched;
    if Accepted(env, mode, c) {
      var h, s :| SearchedIn(c, run, h, s) && OutputsPass(env, mode, c, run, h, s);
      SearchedOnce(c.transfer, c.terminals, run.ledger.graph, run.ledger.bundleOps, run.complete, historical, selected, h, s);
    }
  }

  ghost predicate Hosts(log: seq<Event>, bundle: Digest) {
    exists i :: 0 <= i < |log| && log[i].host.id == bundle
  }

  /** A transfer names an unknown terminal when no operation of its history is in that bundle. */
  lemma {:induction false} UnknownIsUnhosted(c: Consignment, run: Run)
    requires Safe(c.genesis, run.ledger)
    ensures UnknownTerminal(c, run) <==> c.transfer && exists b :: b in c.terminals && !Hosts(run.ledger.log, b)
  {
    hide GenesisId, SoundLog, SingleUse, Graphed, Traced, OpsOf;
    var l := run.ledger;
    forall b ensures OpsOf(l.bundleOps, b) == [] <==> !Hosts(l.log, b) {
      if OpsOf(l.bundleOps, b) != [] {
        var op := OpsOf(l.bundleOps, b)[0];
        assert op in OpsOf(l.bundleOps, b);
        var i :| 0 <= i < |l.log| && InBundle(l.log[i], b, op);
        assert l.log[i].host.id == b;
      }
      if Hosts(l.log, b) {
        var i :| 0 <= i < |l.log| && l.log[i].host.id == b;
        assert InBundle(l.log[i], b, l.log[i].op) && l.log[i].op in OpsOf(l.bundleOps, b);
      }
    }
  }

  /** Full validation accepts exactly the containers whose history runs, whose terminals it
      reaches, and whose live outputs all stand; the search behind the tips always has its
      one answer. */
  lemma {:induction false} ValidateAccepts(env: Env, mode: Mode, c: Consignment)
    requires CanonicalConsignment(c) && !mode.historyOnly
    ensures Accepted(env, mode, c) <==>
              && RunAll(env, mode, c).Ok?
              && var run := RunAll(env, mode, c).value;
                 && (c.transfer ==> forall b :: b in c.terminals ==> Hosts(run.ledger.log, b))
                 && forall historical, selected, ref :: SearchedIn(c, run, historical, selected) && ref in run.ledger.states ==>
                      Stands(env.resolver, run.prepared, Excused(c, historical, ref), run.ledger.states[ref].outpoint)
  {
    hide RunAll, Searched, Safe, CanonicalConsignment, Stands, Excused, UnknownTerminal, Hosts;
    if RunAll(env, mode, c).Ok? {
      var run := RunAll(env, mode, c).value;
      RunIsSafe(env, mode, c);
      GraphIsClosed(c.genesis, run.ledger);
      UnknownIsUnhosted(c, run);
      SearchAnswers(c.transfer, c.terminals, run.ledger.graph, run.ledger.bundleOps, run.complete);
      var historical, selected :| Searched(c.transfer, c.terminals, run.ledger.graph, run.ledger.bundleOps, run.complete, historical, selected);
      OneVerdict(env, mode, c, run, historical, selected);
      forall h, s | SearchedIn(c, run, h, s) ensures h == historical && s == selected {
        SearchedOnce(c.transfer, c.terminals, run.ledger.graph, run.ledger.bundleOps, run.complete, historical, selected, h, s);
      }
      assert SearchedIn(c, run, historical, selected);
    }
  }

  // ----- the modes refine one another

  lemma {:induction false} OpensUnprepared(env: Env, contract: Digest, wb: WitnessBundle)
    requires Open(env, false, contract, wb).Ok?
    ensures !Open(env, false, contract, wb).value.closer.state.Prepared?
  {
    hide BundleOf, Mpc.Convolution, Anchor.VerifyDBC;
  }

  lemma {:induction false} InputsModeless(env: Env, m: Mode, n: Mode, l: Ledger, o: Opened, op: Digest, inputs: seq<InputRef>)
    requires !o.closer.state.Prepared?
    ensures InputsError(env, m, l, o, op, inputs) == InputsError(env, n, l, o, op, inputs)
  {
    if inputs != [] {
      InputsModeless(env, m, n, l, o, op, inputs[1..]);
    }
  }

  lemma {:induction false} ApplyModeless(env: Env, m: Mode, n: Mode, contract: Digest, l: Ledger, o: Opened, t: Transition)
    requires !o.closer.state.Prepared?
    ensures Apply(env, m, contract, l, o, t) == Apply(env, n, contract, l, o, t)
  {
    hide TransitionId, Validated, Register, InputsError;
    InputsModeless(env, m, n, l, o, TransitionId(t), t.inputs);
  }

  lemma {:induction false} ReplayModeless(env: Env, m: Mode, n: Mode, contract: Digest, l: Ledger, steps: seq<Step>)
    requires forall i :: 0 <= i < |steps| ==> !steps[i].host.closer.state.Prepared?
    ensures Replay(env, m, contract, l, steps) == Replay(env, n, contract, l, steps)
    decreases steps
  {
    hide Apply;
    if steps != [] {
      ApplyModeless(env, m, n, contract, l, steps[0].host, steps[0].transition);
      var next := Apply(env, m, contract, l, steps[0].host, steps[0].transition);
      if next.Ok? {
        assert forall i :: 0 <= i < |steps[1..]| ==> steps[1..][i] == steps[i + 1];
        ReplayModeless(env, m, n, contract, next.value, steps[1..]);
      }
    }
  }

  lemma {:induction false} BundlesModeless(env: Env, m: Mode, n: Mode, contract: Digest, bundles: seq<WitnessBundle>, r: Run)
    requires !m.allowPrepared && !n.allowPrepared
    ensures RunBundles(env, m, contract, bundles, r) == RunBundles(env, n, contract, bundles, r)
    ensures RunBundles(env, m, contract, bundles, r).Ok? ==> RunBundles(env, m, contract, bundles, r).value.prepared == r.prepared
    decreases bundles
  {
    hide Open, Replay;
    if bundles != [] && Open(env, false, contract, bundles[0]).Ok? {
      var o := Open(env, false, contract, bundles[0]).value;
      OpensUnprepared(env, contract, bundles[0]);
      ReplayModeless(env, m, n, contract, r.ledger, StepsOf(o, o.transitions));
      var l := Replay(env, m, contract, r.ledger, StepsOf(o, o.transitions));
      if l.Ok? {
        BundlesModeless(env, m, n, contract, bundles[1..], Close(r, l.value, o));
      }
    }
  }

  /** Without prepared witnesses every mode runs the history alike. */
  lemma {:induction false} RunModeless(env: Env, m: Mode, n: Mode, c: Consignment)
    requires !m.allowPrepared && !n.allowPrepared
    ensures RunAll(env, m, c) == RunAll(env, n, c)
    ensures RunAll(env, m, c).Ok? ==> RunAll(env, m, c).value.prepared == map[]
  {
    hide RunBundles, Start, GenesisError, GenesisId;
    if Start(c.genesis).Ok? {
      BundlesModeless(env, m, n, GenesisId(c.genesis), c.bundles, Run(Start(c.genesis).value, map[], true));
    }
  }

  lemma {:induction false} HistoryMode(env: Env, mode: Mode, c: Consignment)
    requires !mode.allowPrepared && mode.historyOnly
    requires RunAll(env, mode, c).Ok? && !UnknownTerminal(c, RunAll(env, mode, c).value)
    requires exists historical, selected :: SearchedIn(c, RunAll(env, mode, c).value, historical, selected)
    ensures Accepted(env, mode, c)
  {
    hide RunAll, Searched;
    RunModeless(env, mode, mode, c);
    var run := RunAll(env, mode, c).value;
    var historical, selected :| SearchedIn(c, run, historical, selected);
    assert OutputsPass(env, mode, c, run, historical, selected);
  }

  /** What full validation accepts, history validation accepts; and a history report
      is given for exactly what history validation accepts. */
  lemma {:induction false} ModesRefine(env: Env, c: Consignment)
    ensures Accepted(env, VALIDATE, c) ==> Accepted(env, HISTORY, c)
    ensures Accepted(env, HISTORY, c) <==> Accepted(env, REPORT, c)
  {
    hide RunAll, OutputsPass, Searched;
    RunModeless(env, VALIDATE, HISTORY, c);
    RunModeless(env, HISTORY, REPORT, c);
    if Accepted(env, VALIDATE, c) || Accepted(env, REPORT, c) {
      HistoryMode(env, HISTORY, c);
    }
    if Accepted(env, HISTORY, c) {
      HistoryMode(env, REPORT, c);
    }
  }

  /** Mode `n` refuses nothing that mode `m` accepts while running a history. */
  predicate Weaker(m: Mode, n: Mode) {
    && (m.allowPrepared ==> n.allowPrepared)
    && (m.historyOnly && m.collecting ==> n.historyOnly && n.collecting)
  }

  lemma {:induction false} OpenRefines(env: Env, m: Mode, n: Mode, contract: Digest, wb: WitnessBundle)
    requires Weaker(m, n) && Open(env, m.allowPrepared, contract, wb).Ok?
    ensures Open(env, n.allowPrepared, contract, wb) == Open(env, m.allowPrepared, contract, wb)
  {
    hide BundleOf, Mpc.Convolution, Anchor.VerifyDBC;
  }

  lemma {:induction false} InputsRefine(env: Env, m: Mode, n: Mode, l: Ledger, o: Opened, op: Digest, inputs: seq<InputRef>)
    requires Weaker(m, n) && InputsError(env, m, l, o, op, inputs) == None
    ensures InputsError(env, n, l, o, op, inputs) == None
  {
    if inputs != [] {
      InputsRefine(env, m, n, l, o, op, inputs[1..]);
    }
  }

  lemma {:induction false} ApplyRefines(env: Env, m: Mode, n: Mode, contract: Digest, l: Ledger, o: Opened, t: Transition)
    requires Weaker(m, n) && Apply(env, m, contract, l, o, t).Ok?
    ensures Apply(env, n, contract, l, o, t) == Apply(env, m, contract, l, o, t)
  {
    hide TransitionId, Validated, Register, InputsError;
    InputsRefine(env, m, n, l, o, TransitionId(t), t.inputs);
  }

  lemma {:induction false} ReplayRefines(env: Env, m: Mode, n: Mode, contract: Digest, l: Ledger, steps: seq<Step>)
    requires Weaker(m, n) && Replay(env, m, contract, l, steps).Ok?
    ensures Replay(env, n, contract, l, steps) == Replay(env, m, contract, l, steps)
    decreases steps
  {
    hide Apply;
    if steps != [] {
      ApplyRefines(env, m, n, contract, l, steps[0].host, steps[0].transition);
      ReplayRefines(env, m, n, contract, Apply(env, m, contract, l, steps[0].host, steps[0].transition).value, steps[1..]);
    }
  }

  lemma {:induction false} BundlesRefine(env: Env, m: Mode, n: Mode, contract: Digest, bundles: seq<WitnessBundle>, r: Run)
    requires Weaker(m, n) && RunBundles(env, m, contract, bundles, r).Ok?
    ensures RunBundles(env, n, contract, bundles, r) == RunBundles(env, m, contract, bundles, r)
    decreases bundles
  {
    hide Open, Replay;
    if bundles != [] {
      OpenRefines(env, m, n, contract, bundles[0]);
      var o := Open(env, m.allowPrepared, contract, bundles[0]).value;
      ReplayRefines(env, m, n, contract, r.ledger, StepsOf(o, o.transitions));
      var l := Replay(env, m, contract, r.ledger, StepsOf(o, o.transitions)).value;
      BundlesRefine(env, m, n, contract, bundles[1..], Close(r, l, o));
    }
  }

  /** A history that runs in a mode runs alike in every weaker one. */
  lemma {:induction false} RunRefines(env: Env, m: Mode, n: Mode, c: Consignment)
    requires Weaker(m, n) && RunAll(env, m, c).Ok?
    ensures RunAll(env, n, c) == RunAll(env, m, c)
  {
    hide RunBundles, Start, GenesisError, GenesisId;
    BundlesRefine(env, m, n, GenesisId(c.genesis), c.bundles, Run(Start(c.genesis).value, map[], true));
  }

  lemma {:induction false} NothingMissing(env: Env, c: Consignment, run: Run, historical: set<Digest>, selected: set<Digest>)
    requires OutputsPass(env, PREPARED, c, run, historical, selected)
    ensures OutputsPass(env, PREPARED_REPORT, c, run, historical, selected)
  {
    hide GenesisId;
    forall ref ensures !MissingOutput(run.ledger.states, selected, run.prepared, ref) {
      if ref in run.ledger.states {
        assert Stands(env.resolver, run.prepared, Excused(c, historical, ref), run.ledger.states[ref].outpoint);
      }
    }
  }

  lemma {:induction false} SameRunAccepted(env: Env, m: Mode, n: Mode, c: Consignment)
    requires Accepted(env, m, c) && RunAll(env, n, c) == RunAll(env, m, c)
    requires forall h, s :: OutputsPass(env, m, c, RunAll(env, m, c).value, h, s) ==> OutputsPass(env, n, c, RunAll(env, m, c).value, h, s)
    ensures Accepted(env, n, c)
  {
    hide RunAll, OutputsPass, Searched;
    var run := RunAll(env, m, c).value;
    var h, s :| SearchedIn(c, run, h, s) && OutputsPass(env, m, c, run, h, s);
    assert SearchedIn(c, RunAll(env, n, c).value, h, s) && OutputsPass(env, n, c, run, h, s);
  }

  /** What is accepted without prepared witnesses is accepted with them, and what full
      validation with them accepts, their history report accepts, from the same run. */
  lemma {:induction false} PreparedModesRefine(env: Env, c: Consignment)
    ensures Accepted(env, VALIDATE, c) ==> Accepted(env, PREPARED, c) && RunAll(env, PREPARED, c) == RunAll(env, VALIDATE, c)
    ensures Accepted(env, PREPARED, c) ==> Accepted(env, PREPARED_REPORT, c) && RunAll(env, PREPARED_REPORT, c) == RunAll(env, PREPARED, c)
    ensures Accepted(env, REPORT, c) ==> Accepted(env, PREPARED_REPORT, c) && RunAll(env, PREPARED_REPORT, c) == RunAll(env, REPORT, c)
  {
    hide RunAll, Searched;
    if Accepted(env, VALIDATE, c) {
      RunRefines(env, VALIDATE, PREPARED, c);
      SameRunAccepted(env, VALIDATE, PREPARED, c);
    }
    if Accepted(env, PREPARED, c) {
      RunRefines(env, PREPARED, PREPARED_REPORT, c);
      var run := RunAll(env, PREPARED, c).value;
      forall h, s | OutputsPass(env, PREPARED, c, run, h, s) ensures OutputsPass(env, PREPARED_REPORT, c, run, h, s) {
        NothingMissing(env, c, run, h, s);
      }
      SameRunAccepted(env, PREPARED, PREPARED_REPORT, c);
    }
    if Accepted(env, REPORT, c) {
      RunRefines(env, REPORT, PREPARED_REPORT, c);
      SameRunAccepted(env, REPORT, PREPARED_REPORT, c);
    }
  }

  /** A history report is given, and a history accepted, exactly when the history runs and its
      terminals are known: for such histories the search behind the tips always has an answer. */
  lemma {:induction false} HistoryAccepted(env: Env, c: Consignment)
    requires CanonicalConsignment(c)
    ensures Accepted(env, HISTORY, c) <==> RunAll(env, HISTORY, c).Ok? && !UnknownTerminal(c, RunAll(env, HISTORY, c).value)
  {
    hide RunAll, Searched, Safe, CanonicalConsignment;
    if RunAll(env, HISTORY, c).Ok? && !UnknownTerminal(c, RunAll(env, HISTORY, c).value) {
      var run := RunAll(env, HISTORY, c).value;
      RunIsSafe(env, HISTORY, c);
      GraphIsClosed(c.genesis, run.ledger);
      SearchAnswers(c.transfer, c.terminals, run.ledger.graph, run.ledger.bundleOps, run.complete);
      var historical, selected :| Searched(c.transfer, c.terminals, run.ledger.graph, run.ledger.bundleOps, run.complete, historical, selected);
      assert SearchedIn(c, run, historical, selected);
      HistoryMode(env, HISTORY, c);
    }
  }
}
