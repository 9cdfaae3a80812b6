/** What every accepted history keeps, transition by transition. */
module Safety {
  import opened Anchor
  import opened Bytes
  import opened Catalog
  import opened Collections
  import opened Commitments
  import opened Operations
  import opened Outputs
  import opened Schemas
  import opened SchemaTotals
  import opened Symbols
  import opened Validator
  import opened Wrappers

  // ----- what one accepted transition establishes

  /** The checks on one input. */
  ghost predicate InputAccepted(l: Ledger, o: Opened, op: Digest, input: InputRef) {
    && InputMapCommits(o.inputMap, input, op)
    && input !in l.consumed
    && input in l.states
    && TxSpends(o.closer.tx, l.states[input].outpoint)
  }

  lemma {:induction false} InputsAccepted(env: Env, mode: Mode, l: Ledger, o: Opened, op: Digest, inputs: seq<InputRef>)
    requires InputsError(env, mode, l, o, op, inputs) == None
    ensures forall i :: 0 <= i < |inputs| ==> InputAccepted(l, o, op, inputs[i])
  {
    if inputs != [] {
      InputsAccepted(env, mode, l, o, op, inputs[1..]);
      forall i | 0 <= i < |inputs| ensures InputAccepted(l, o, op, inputs[i]) {
        assert i > 0 ==> inputs[i] == inputs[1..][i - 1];
      }
    }
  }

  lemma {:induction false} SpentIs(states: map<InputRef, Placed>, inputs: seq<InputRef>)
    requires forall i :: 0 <= i < |inputs| ==> inputs[i] in states
    ensures |Spent(states, inputs)| == |inputs|
    ensures forall i :: 0 <= i < |inputs| ==> Spent(states, inputs)[i] == states[inputs[i]]
  {
    if inputs != [] {
      assert inputs[0] in states;
      forall i | 0 <= i < |inputs[1..]| ensures inputs[1..][i] in states { assert inputs[i + 1] in states; }
      SpentIs(states, inputs[1..]);
    }
  }

  /** The event an accepted transition adds to the log. */
  function Entered(l: Ledger, o: Opened, t: Transition): Event {
    Event(TransitionId(t), t, o, Spent(l.states, t.inputs))
  }

  /** An accepted transition passed every check, and changes each part of the ledger in one way. */
  lemma {:induction false} Applied(env: Env, mode: Mode, contract: Digest, l: Ledger, o: Opened, t: Transition)
    requires Apply(env, mode, contract, l, o, t).Ok?
    ensures t.inputs != []
    ensures forall i :: 0 <= i < |t.inputs| ==> InputAccepted(l, o, TransitionId(t), t.inputs[i])
    ensures Validated(env.schema, env.types, t, Context(contract, l.globals), Resolution(l.states)).Ok?
    ensures var m := Apply(env, mode, contract, l, o, t).value;
            && Register(l.states - Elements(t.inputs), TransitionId(t), RevealedOutputs(t.assignments), o.closer.txid) == Ok(m.states)
            && m.consumed == l.consumed + Elements(t.inputs)
            && m.graph == l.graph[TransitionId(t) := Node(o.id, Sources(t.inputs))]
            && m.bundleOps == l.bundleOps[o.id := OpsOf(l.bundleOps, o.id) + [TransitionId(t)]]
            && m.globals == AppendGlobals(l.globals, t.globals)
            && m.log == l.log + [Entered(l, o, t)]
  {
    hide TransitionId, Validated, Register, InputsError;
    InputsAccepted(env, mode, l, o, TransitionId(t), t.inputs);
  }

  // ----- the invariants

  /** Each logged operation is what it claims, and its witness closes every seal it spends. */
  ghost predicate SoundEvent(e: Event) {
    && CanonicalTransition(e.transition) && e.transition.inputs != []
    && e.op == TransitionId(e.transition)
    && |e.spent| == |e.transition.inputs|
    && (forall k :: 0 <= k < |e.spent| ==>
          InputMapCommits(e.host.inputMap, e.transition.inputs[k], e.op) && TxSpends(e.host.closer.tx, e.spent[k].outpoint))
  }

  /** A live or spent output is a disclosed assignment of genesis or of an earlier operation. */
  ghost predicate Origin(g: Genesis, log: seq<Event>, ref: InputRef, p: Placed) {
    || (ref.op == GenesisId(g) && From(g.assignments, ZERO, ref, p))
    || exists j :: 0 <= j < |log| && Makes(log[j], ref, p)
  }

  ghost predicate From(es: seq<Entry>, txid: Digest, ref: InputRef, p: Placed) {
    && IsRevealed(es, ref.ty, ref.no)
    && Placing(Of(es, ref.ty)[ref.no].state, Of(es, ref.ty)[ref.no].seal, txid) == Ok(p)
  }

  ghost predicate Makes(e: Event, ref: InputRef, p: Placed) {
    e.op == ref.op && From(e.transition.assignments, e.host.closer.txid, ref, p)
  }

  ghost predicate Spends(e: Event, ref: InputRef) {
    ref in e.transition.inputs
  }

  /** Live and consumed outputs are apart; every consumed one was consumed once. */
  ghost predicate SingleUse(l: Ledger) {
    && (forall ref :: ref in l.states ==> ref !in l.consumed)
    && (forall ref :: ref in l.consumed <==> exists i :: 0 <= i < |l.log| && Spends(l.log[i], ref))
    && (forall i, j, ref :: 0 <= i < j < |l.log| && Spends(l.log[i], ref) ==> !Spends(l.log[j], ref))
  }

  /** The graph has genesis and every logged operation, each under one id. */
  ghost predicate Graphed(contract: Digest, l: Ledger) {
    && contract in l.graph && l.graph[contract] == Node(ZERO, [])
    && (forall op :: op in l.graph ==> op == contract || Logged(l.log, op))
    && (forall i :: 0 <= i < |l.log| ==> HasNode(l.graph, l.log[i]))
    && !Logged(l.log, contract) && DistinctOps(l.log)
  }

  ghost predicate Logged(log: seq<Event>, op: Digest) {
    exists i :: 0 <= i < |log| && log[i].op == op
  }

  ghost predicate DistinctOps(log: seq<Event>) {
    forall i, j :: 0 <= i < j < |log| ==> log[i].op != log[j].op
  }

  ghost predicate HasNode(graph: map<Digest, Node>, e: Event) {
    e.op in graph && graph[e.op] == Node(e.host.id, Sources(e.transition.inputs))
  }

  /** Every output, live or spent, is traced to the operation that disclosed it,
      and operations spend only what stood before them. */
  ghost predicate Traced(g: Genesis, l: Ledger) {
    && (forall ref :: ref in l.states ==> Origin(g, l.log, ref, l.states[ref]))
    && (forall i, k :: 0 <= i < |l.log| && 0 <= k < |l.log[i].spent| && k < |l.log[i].transition.inputs| ==>
          Origin(g, l.log[..i], l.log[i].transition.inputs[k], l.log[i].spent[k]))
  }

  /** The operations recorded under each bundle. */
  ghost predicate Bundled(l: Ledger) {
    && (forall b, op :: op in OpsOf(l.bundleOps, b) <==> exists i :: 0 <= i < |l.log| && InBundle(l.log[i], b, op))
    && (forall b :: b in l.bundleOps ==> l.bundleOps[b] != [])
  }

  ghost predicate InBundle(e: Event, b: Digest, op: Digest) {
    e.host.id == b && e.op == op
  }

  ghost predicate SoundLog(log: seq<Event>) {
    forall i :: 0 <= i < |log| ==> SoundEvent(log[i])
  }

  ghost predicate Safe(g: Genesis, l: Ledger) {
    SoundLog(l.log) && SingleUse(l) && Graphed(GenesisId(g), l) && Traced(g, l) && Bundled(l)
  }

  // ----- the start is safe

  lemma {:induction false} SafeStart(g: Genesis)
    requires CanonicalGenesis(g) && Start(g).Ok?
    ensures Safe(g, Start(g).value)
  {
    hide Placing, GenesisId, Register;
    var l := Start(g).value;
    forall ref | ref in l.states ensures Origin(g, l.log, ref, l.states[ref]) {
      EntriesIncrease(g.assignments);
      RegisterMeans(map[], GenesisId(g), g.assignments, ZERO, ref);
    }
  }

  lemma {:induction false} EntriesIncrease(es: seq<Entry>)
    requires CanonicalEntries(es)
    ensures Increases(es)
  {
  }

  // ----- every transition keeps it

  lemma {:induction false} SoundEntered(env: Env, mode: Mode, g: Genesis, l: Ledger, o: Opened, t: Transition)
    requires CanonicalTransition(t) && Apply(env, mode, GenesisId(g), l, o, t).Ok?
    ensures SoundEvent(Entered(l, o, t))
    ensures forall k :: 0 <= k < |t.inputs| ==> t.inputs[k] in l.states && Spent(l.states, t.inputs)[k] == l.states[t.inputs[k]]
  {
    hide TransitionId, CanonicalTransition, TxSpends, InputMapCommits, Apply;
    Applied(env, mode, GenesisId(g), l, o, t);
    forall i | 0 <= i < |t.inputs| ensures t.inputs[i] in l.states {
      assert InputAccepted(l, o, TransitionId(t), t.inputs[i]);
    }
    SpentIs(l.states, t.inputs);
    forall k | 0 <= k < |t.inputs|
      ensures InputMapCommits(o.inputMap, t.inputs[k], TransitionId(t)) && TxSpends(o.closer.tx, Spent(l.states, t.inputs)[k].outpoint)
    {
      assert InputAccepted(l, o, TransitionId(t), t.inputs[k]);
    }
  }

  /** An operation id that was seen commits to inputs that are consumed by now. */
  lemma {:induction false} SeenInputs(g: Genesis, l: Ledger, t: Transition)
    requires Safe(g, l) && CanonicalTransition(t) && t.inputs != []
    ensures TransitionId(t) in l.graph ==> t.inputs[0] in l.consumed
  {
    hide TransitionId, GenesisId, CanonicalTransition, Traced, Bundled;
    GenesisIsNoTransition(g, t);
    if TransitionId(t) in l.graph {
      var i :| 0 <= i < |l.log| && l.log[i].op == TransitionId(t);
      assert SoundEvent(l.log[i]);
      TransitionIdExact(t, l.log[i].transition);
      assert Spends(l.log[i], t.inputs[0]);
    }
  }

  /** The id of an accepted transition was never seen: it commits to inputs that
      only the same transition could have consumed. */
  lemma {:induction false} FreshId(env: Env, mode: Mode, g: Genesis, l: Ledger, o: Opened, t: Transition)
    requires Safe(g, l) && CanonicalTransition(t) && Apply(env, mode, GenesisId(g), l, o, t).Ok?
    ensures TransitionId(t) !in l.graph
  {
    hide TransitionId, GenesisId, CanonicalTransition, Apply, Safe;
    Applied(env, mode, GenesisId(g), l, o, t);
    assert InputAccepted(l, o, TransitionId(t), t.inputs[0]);
    SeenInputs(g, l, t);
  }

  /** Live outputs belong to operations of the graph. */
  lemma {:induction false} LiveKnown(g: Genesis, l: Ledger, ref: InputRef)
    requires Safe(g, l) && ref in l.states
    ensures ref.op in l.graph
  {
    hide GenesisId, SoundEvent, From;
    assert Origin(g, l.log, ref, l.states[ref]);
    if ref.op != GenesisId(g) {
      var j :| 0 <= j < |l.log| && Makes(l.log[j], ref, l.states[ref]);
    }
  }

  lemma {:induction false} NothingUnderFreshId(g: Genesis, l: Ledger, op: Digest)
    requires Safe(g, l) && op !in l.graph
    ensures forall ref :: ref in l.states ==> ref.op != op
  {
    forall ref | ref in l.states ensures ref.op != op {
      LiveKnown(g, l, ref);
    }
  }

  lemma {:induction false} OriginGrows(g: Genesis, log: seq<Event>, e: Event, ref: InputRef, p: Placed)
    requires Origin(g, log, ref, p)
    ensures Origin(g, log + [e], ref, p)
  {
    hide Makes, From, GenesisId;
    if !(ref.op == GenesisId(g) && From(g.assignments, ZERO, ref, p)) {
      var j :| 0 <= j < |log| && Makes(log[j], ref, p);
      assert (log + [e])[j] == log[j];
    }
  }

  /** Every new live output is an old one that was not spent, or the new operation's. */
  lemma {:induction false} LiveAfter(env: Env, mode: Mode, g: Genesis, l: Ledger, o: Opened, t: Transition, ref: InputRef)
    requires Safe(g, l) && CanonicalTransition(t) && Apply(env, mode, GenesisId(g), l, o, t).Ok?
    ensures var m := Apply(env, mode, GenesisId(g), l, o, t).value;
            && (ref in m.states <==> if ref.op == TransitionId(t) then IsRevealed(t.assignments, ref.ty, ref.no)
                                     else ref in l.states && ref !in t.inputs)
            && (ref in m.states && ref.op != TransitionId(t) ==> m.states[ref] == l.states[ref])
            && (ref in m.states && ref.op == TransitionId(t) ==> Makes(Entered(l, o, t), ref, m.states[ref]))
  {
    hide TransitionId, GenesisId, Apply, Register, Placing;
    Applied(env, mode, GenesisId(g), l, o, t);
    FreshId(env, mode, g, l, o, t);
    NothingUnderFreshId(g, l, TransitionId(t));
    EntriesIncrease(t.assignments);
    RegisterMeans(l.states - Elements(t.inputs), TransitionId(t), t.assignments, o.closer.txid, ref);
  }

  lemma {:induction false} KeepsSingleUse(env: Env, mode: Mode, g: Genesis, l: Ledger, o: Opened, t: Transition)
    requires Safe(g, l) && CanonicalTransition(t) && Apply(env, mode, GenesisId(g), l, o, t).Ok?
    ensures SingleUse(Apply(env, mode, GenesisId(g), l, o, t).value)
  {
    hide TransitionId, GenesisId, Apply, CanonicalTransition, Graphed, Traced, Bundled, SoundLog, Safe;
    assert SingleUse(l) by { SafeParts(g, l); }
    Applied(env, mode, GenesisId(g), l, o, t);
    var m, e := Apply(env, mode, GenesisId(g), l, o, t).value, Entered(l, o, t);
    forall ref | ref in m.states ensures ref !in m.consumed {
      LiveAfter(env, mode, g, l, o, t, ref);
      if ref.op == TransitionId(t) {
        NewIsUnconsumed(env, mode, g, l, o, t, ref);
      }
    }
    forall ref | ref in t.inputs ensures ref in l.states && ref !in l.consumed {
      var i :| 0 <= i < |t.inputs| && t.inputs[i] == ref;
      assert InputAccepted(l, o, TransitionId(t), t.inputs[i]);
    }
    ConsumedAfter(l, m, e);
  }

  lemma {:induction false} SafeParts(g: Genesis, l: Ledger)
    requires Safe(g, l)
    ensures SoundLog(l.log) && SingleUse(l) && Graphed(GenesisId(g), l) && Traced(g, l) && Bundled(l)
  {
  }

  /** An output of the new operation was not consumed before, nor is it its own input. */
  lemma {:induction false} NewIsUnconsumed(env: Env, mode: Mode, g: Genesis, l: Ledger, o: Opened, t: Transition, ref: InputRef)
    requires Safe(g, l) && CanonicalTransition(t) && Apply(env, mode, GenesisId(g), l, o, t).Ok? && ref.op == TransitionId(t)
    ensures ref !in l.consumed && ref !in t.inputs
  {
    hide TransitionId, GenesisId, Apply, CanonicalTransition, Bundled;
    FreshId(env, mode, g, l, o, t);
    Applied(env, mode, GenesisId(g), l, o, t);
    if ref in t.inputs {
      var i :| 0 <= i < |t.inputs| && t.inputs[i] == ref;
      assert InputAccepted(l, o, TransitionId(t), t.inputs[i]);
      LiveKnown(g, l, ref);
    }
    if ref in l.consumed {
      var i :| 0 <= i < |l.log| && Spends(l.log[i], ref);
      ConsumedKnown(g, l, i, ref);
    }
  }

  lemma {:induction false} ConsumedKnown(g: Genesis, l: Ledger, i: nat, ref: InputRef)
    requires SoundLog(l.log) && Traced(g, l) && Graphed(GenesisId(g), l) && i < |l.log| && Spends(l.log[i], ref)
    ensures ref.op in l.graph
  {
    hide GenesisId, TransitionId, From, CanonicalTransition, TxSpends, InputMapCommits, Sources;
    assert SoundEvent(l.log[i]);
    var k :| 0 <= k < |l.log[i].transition.inputs| && l.log[i].transition.inputs[k] == ref;
    assert Origin(g, l.log[..i], l.log[i].transition.inputs[k], l.log[i].spent[k]);
    if ref.op != GenesisId(g) {
      var j :| 0 <= j < |l.log[..i]| && Makes(l.log[..i][j], ref, l.log[i].spent[k]);
      assert l.log[j].op == ref.op;
    }
  }

  lemma {:induction false} ConsumedAfter(l: Ledger, m: Ledger, e: Event)
    requires SingleUse(l) && m.log == l.log + [e] && m.consumed == l.consumed + Elements(e.transition.inputs)
    requires forall ref :: ref in m.states ==> ref !in m.consumed
    requires forall ref :: ref in e.transition.inputs ==> ref !in l.consumed
    ensures SingleUse(m)
  {
    var n := |l.log|;
    assert m.log[n] == e && forall i :: 0 <= i < n ==> m.log[i] == l.log[i];
    forall ref ensures ref in m.consumed <==> exists i :: 0 <= i < |m.log| && Spends(m.log[i], ref) {
      if ref in l.consumed {
        var i :| 0 <= i < |l.log| && Spends(l.log[i], ref);
        assert Spends(m.log[i], ref);
      } else if ref in e.transition.inputs {
        assert Spends(m.log[n], ref);
      }
      if i :| 0 <= i < |m.log| && Spends(m.log[i], ref) {
        assert i < n ==> Spends(l.log[i], ref);
      }
    }
    forall i, j, ref | 0 <= i < j < |m.log| && Spends(m.log[i], ref) ensures !Spends(m.log[j], ref) {
      assert Spends(l.log[i], ref);
    }
  }

  lemma {:induction false} LoggedMore(log: seq<Event>, e: Event)
    ensures forall op :: Logged(log + [e], op) <==> Logged(log, op) || e.op == op
  {
    var more := log + [e];
    assert more[|log|] == e;
    forall op ensures Logged(more, op) <==> Logged(log, op) || e.op == op {
      if Logged(log, op) {
        var i :| 0 <= i < |log| && log[i].op == op;
        assert more[i] == log[i];
      }
    }
  }

  lemma {:induction false} DistinctOpsMore(log: seq<Event>, e: Event)
    requires DistinctOps(log) && !Logged(log, e.op)
    ensures DistinctOps(log + [e])
  {
  }

  lemma {:induction false} NodesAfter(contract: Digest, l: Ledger, m: Ledger, e: Event)
    requires Graphed(contract, l) && m.log == l.log + [e] && e.op !in l.graph
    requires m.graph == l.graph[e.op := Node(e.host.id, Sources(e.transition.inputs))]
    ensures !Logged(l.log, e.op)
    ensures forall i :: 0 <= i < |m.log| ==> HasNode(m.graph, m.log[i])
  {
    hide Sources, DistinctOps;
    forall i | 0 <= i < |m.log| ensures HasNode(m.graph, m.log[i]) && (i < |l.log| ==> l.log[i].op != e.op) {
      if i < |l.log| {
        assert HasNode(l.graph, l.log[i]) && m.log[i] == l.log[i];
      }
    }
  }

  lemma {:induction false} GraphedAfter(contract: Digest, l: Ledger, m: Ledger, e: Event)
    requires Graphed(contract, l) && m.log == l.log + [e] && e.op !in l.graph
    requires m.graph == l.graph[e.op := Node(e.host.id, Sources(e.transition.inputs))]
    ensures Graphed(contract, m)
  {
    hide Sources, HasNode, Logged, DistinctOps;
    NodesAfter(contract, l, m, e);
    LoggedMore(l.log, e);
    DistinctOpsMore(l.log, e);
  }

  lemma {:induction false} KeepsTraced(env: Env, mode: Mode, g: Genesis, l: Ledger, o: Opened, t: Transition)
    requires Safe(g, l) && CanonicalTransition(t) && Apply(env, mode, GenesisId(g), l, o, t).Ok?
    ensures Traced(g, Apply(env, mode, GenesisId(g), l, o, t).value)
  {
    hide TransitionId, GenesisId, Apply, CanonicalTransition, SingleUse, Graphed, Bundled, SoundLog, Origin, Makes;
    Applied(env, mode, GenesisId(g), l, o, t);
    SoundEntered(env, mode, g, l, o, t);
    var m, e := Apply(env, mode, GenesisId(g), l, o, t).value, Entered(l, o, t);
    var n := |l.log|;
    forall ref | ref in m.states ensures Origin(g, m.log, ref, m.states[ref]) {
      LiveAfter(env, mode, g, l, o, t, ref);
      if ref.op == TransitionId(t) {
        NewOrigin(g, l.log, e, ref, m.states[ref]);
      } else {
        OriginGrows(g, l.log, e, ref, l.states[ref]);
      }
    }
    forall i, k | 0 <= i < |m.log| && 0 <= k < |m.log[i].spent| && k < |m.log[i].transition.inputs|
      ensures Origin(g, m.log[..i], m.log[i].transition.inputs[k], m.log[i].spent[k])
    {
      if i < n {
        assert m.log[..i] == l.log[..i] && m.log[i] == l.log[i];
      } else {
        assert m.log[..i] == l.log && m.log[i] == e;
      }
    }
  }

  lemma {:induction false} NewOrigin(g: Genesis, log: seq<Event>, e: Event, ref: InputRef, p: Placed)
    requires Makes(e, ref, p)
    ensures Origin(g, log + [e], ref, p)
  {
    assert (log + [e])[|log|] == e;
  }

  lemma {:induction false} KeepsBundled(l: Ledger, m: Ledger, e: Event)
    requires Bundled(l) && m.log == l.log + [e]
    requires m.bundleOps == l.bundleOps[e.host.id := OpsOf(l.bundleOps, e.host.id) + [e.op]]
    ensures Bundled(m)
  {
    var n := |l.log|;
    assert m.log[n] == e && forall i :: 0 <= i < n ==> m.log[i] == l.log[i];
    forall b, op ensures op in OpsOf(m.bundleOps, b) <==> exists i :: 0 <= i < |m.log| && InBundle(m.log[i], b, op) {
      if op in OpsOf(l.bundleOps, b) {
        var i :| 0 <= i < |l.log| && InBundle(l.log[i], b, op);
        assert InBundle(m.log[i], b, op);
      }
      assert InBundle(m.log[n], e.host.id, e.op);
      if i :| 0 <= i < |m.log| && InBundle(m.log[i], b, op) {
        assert i < n ==> InBundle(l.log[i], b, op);
      }
    }
  }

  /** One accepted transition keeps every safety property. */
  lemma {:induction false} KeepsSafe(env: Env, mode: Mode, g: Genesis, l: Ledger, o: Opened, t: Transition)
    requires Safe(g, l) && CanonicalTransition(t) && Apply(env, mode, GenesisId(g), l, o, t).Ok?
    ensures Safe(g, Apply(env, mode, GenesisId(g), l, o, t).value)
  {
    hide TransitionId, GenesisId, Apply, CanonicalTransition, SingleUse, Graphed, Bundled, Traced;
    var m := Apply(env, mode, GenesisId(g), l, o, t).value;
    Applied(env, mode, GenesisId(g), l, o, t);
    SoundEntered(env, mode, g, l, o, t);
    KeepsSingleUse(env, mode, g, l, o, t);
    FreshId(env, mode, g, l, o, t);
    GraphedAfter(GenesisId(g), l, m, Entered(l, o, t));
    KeepsTraced(env, mode, g, l, o, t);
    KeepsBundled(l, m, Entered(l, o, t));
  }

  // ----- over runs

  ghost predicate CanonicalSteps(steps: seq<Step>) {
    forall i :: 0 <= i < |steps| ==> CanonicalTransition(steps[i].transition)
  }

  lemma {:induction false} SafeReplay(env: Env, mode: Mode, g: Genesis, l: Ledger, steps: seq<Step>)
    requires Safe(g, l) && CanonicalSteps(steps) && Replay(env, mode, GenesisId(g), l, steps).Ok?
    ensures Safe(g, Replay(env, mode, GenesisId(g), l, steps).value)
    decreases steps
  {
    hide Safe, Apply, GenesisId, CanonicalTransition;
    if steps != [] {
      assert CanonicalTransition(steps[0].transition);
      KeepsSafe(env, mode, g, l, steps[0].host, steps[0].transition);
      var next := Apply(env, mode, GenesisId(g), l, steps[0].host, steps[0].transition).value;
      assert forall i :: 0 <= i < |steps[1..]| ==> steps[1..][i] == steps[i + 1];
      SafeReplay(env, mode, g, next, steps[1..]);
    }
  }

  /** Whatever transitions are accepted after genesis, in whatever mode: outputs are
      used once, ids are fresh, spends are traced and ordered, bundles are recorded. */
  lemma {:induction false} RunsAreSafe(env: Env, mode: Mode, g: Genesis, steps: seq<Step>)
    requires CanonicalGenesis(g) && CanonicalSteps(steps) && Start(g).Ok?
    requires Replay(env, mode, GenesisId(g), Start(g).value, steps).Ok?
    ensures Safe(g, Replay(env, mode, GenesisId(g), Start(g).value, steps).value)
  {
    SafeStart(g);
    SafeReplay(env, mode, g, Start(g).value, steps);
  }
}
