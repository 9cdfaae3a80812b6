/** What validation reports: the material history of the selected operations, and
    the outputs that are still unspent. */
module Report {
  import opened Anchor
  import opened Bytes
  import opened Catalog
  import opened Operations
  import opened Outputs
  import opened Safety
  import opened Schemas
  import opened Symbols
  import opened Validator
  import opened Wrappers

  /** One output spent by one validated operation. */
  datatype Consumption = Consumption(input: InputRef, consumer: Digest, bundle: Digest, txid: Digest, state: WitnessState, output: Placed)

  datatype Historical = Historical(reference: InputRef, output: Placed, created: WitnessState)

  datatype Current = Current(reference: InputRef, output: Placed, value: int, script: seq<Sym>)

  datatype HistoryReport = HistoryReport(consumers: seq<Consumption>, historical: seq<Historical>, prepared: seq<Current>)

  // ----- recording consumption

  function Recorded(inputs: seq<InputRef>, spent: seq<Placed>, op: Digest, o: Opened): (r: seq<Consumption>)
    requires |inputs| == |spent|
    ensures |r| == |inputs|
    ensures forall i :: 0 <= i < |r| ==> r[i] == Consumption(inputs[i], op, o.id, o.closer.txid, o.closer.state, spent[i])
  {
    if inputs == [] then []
    else [Consumption(inputs[0], op, o.id, o.closer.txid, o.closer.state, spent[0])] + Recorded(inputs[1..], spent[1..], op, o)
  }

  /** Everything the operations of a log consumed, in order. */
  function Consumptions(log: seq<Event>): seq<Consumption> {
    if log == [] then []
    else
      var e := log[|log| - 1];
      Consumptions(log[..|log| - 1]) +
      if |e.spent| == |e.transition.inputs| then Recorded(e.transition.inputs, e.spent, e.op, e.host) else []
  }

  function WitnessStates(log: seq<Event>): map<Digest, WitnessState> {
    if log == [] then map[]
    else
      var e := log[|log| - 1];
      WitnessStates(log[..|log| - 1])[e.host.closer.txid := e.host.closer.state]
  }

  class Collector {
    var witnessStates: map<Digest, WitnessState>
    var consumed: seq<Consumption>

    constructor ()
      ensures witnessStates == map[] && consumed == []
    {
      witnessStates, consumed := map[], [];
    }

    /** The collector holds what a log says. */
    ghost predicate Tells(log: seq<Event>)
      reads this
    {
      witnessStates == WitnessStates(log) && consumed == Consumptions(log)
    }

    /** Runs right before the inputs leave the ledger. */
    method RecordConsumption(inputs: seq<InputRef>, states: map<InputRef, Placed>, op: Digest, o: Opened)
      requires forall i :: 0 <= i < |inputs| ==> inputs[i] in states
      modifies this
      ensures witnessStates == old(witnessStates)[o.closer.txid := o.closer.state]
      ensures |Spent(states, inputs)| == |inputs|
      ensures consumed == old(consumed) + Recorded(inputs, Spent(states, inputs), op, o)
    {
      SpentIs(states, inputs);
      witnessStates := witnessStates[o.closer.txid := o.closer.state];
      ghost var all := Recorded(inputs, Spent(states, inputs), op, o);
      for i := 0 to |inputs|
        invariant witnessStates == old(witnessStates)[o.closer.txid := o.closer.state]
        invariant consumed == old(consumed) + all[..i]
      {
        consumed := consumed + [Consumption(inputs[i], op, o.id, o.closer.txid, o.closer.state, states[inputs[i]])];
        assert all[..i + 1] == all[..i] + [all[i]];
      }
      assert all[..|inputs|] == all;
    }
  }

  lemma {:induction false} LogGrows(log: seq<Event>, e: Event)
    requires |e.spent| == |e.transition.inputs|
    ensures Consumptions(log + [e]) == Consumptions(log) + Recorded(e.transition.inputs, e.spent, e.op, e.host)
    ensures WitnessStates(log + [e]) == WitnessStates(log)[e.host.closer.txid := e.host.closer.state]
  {
    assert (log + [e])[..|log|] == log;
  }

  /** Operation `i` is the last of the log that `txid` witnesses. */
  ghost predicate LastUnder(log: seq<Event>, txid: Digest, i: int) {
    && 0 <= i < |log| && log[i].host.closer.txid == txid
    && forall j :: i < j < |log| ==> log[j].host.closer.txid != txid
  }

  /** A witness of the log is known by the state that its last operation saw it in. */
  lemma {:induction false} WitnessStatesMean(log: seq<Event>, txid: Digest)
    ensures txid in WitnessStates(log) <==> exists i :: LastUnder(log, txid, i)
    ensures forall i :: LastUnder(log, txid, i) ==> WitnessStates(log)[txid] == log[i].host.closer.state
  {
    if log != [] {
      var n := |log| - 1;
      WitnessStatesMean(log[..n], txid);
      if log[n].host.closer.txid == txid {
        assert LastUnder(log, txid, n);
      } else {
        if i :| LastUnder(log[..n], txid, i) {
          assert LastUnder(log, txid, i);
        }
        forall i | LastUnder(log, txid, i) ensures LastUnder(log[..n], txid, i) {
        }
      }
    }
  }

  // ----- the order of reports

  predicate RefLess(less: (Digest, Digest) -> bool, a: InputRef, b: InputRef) {
    if a.op != b.op then less(a.op, b.op) else if a.ty != b.ty then a.ty < b.ty else a.no < b.no
  }

  function Insert(less: (Digest, Digest) -> bool, x: Historical, s: seq<Historical>): seq<Historical> {
    if s == [] then [x]
    else if RefLess(less, x.reference, s[0].reference) then [x] + s
    else [s[0]] + Insert(less, x, s[1..])
  }

  function SortedBy(less: (Digest, Digest) -> bool, s: seq<Historical>): seq<Historical> {
    if s == [] then [] else Insert(less, s[0], SortedBy(less, s[1..]))
  }

  ghost predicate Ascending(less: (Digest, Digest) -> bool, s: seq<Historical>) {
    forall i, j :: 0 <= i < j < |s| ==> Before(less, s[i].reference, s[j].reference)
  }

  /** References rise by operation, then by type, then by number. */
  ghost predicate Before(less: (Digest, Digest) -> bool, a: InputRef, b: InputRef) {
    || less(a.op, b.op)
    || (a.op == b.op && a.ty < b.ty)
    || (a.op == b.op && a.ty == b.ty && a.no < b.no)
  }

  ghost predicate DistinctRefs(s: seq<Historical>) {
    forall i, j :: 0 <= i < j < |s| ==> s[i].reference != s[j].reference
  }

  lemma {:induction false} InsertHas(less: (Digest, Digest) -> bool, x: Historical, s: seq<Historical>, y: Historical)
    ensures y in Insert(less, x, s) <==> y == x || y in s
  {
    if s != [] {
      InsertHas(less, x, s[1..], y);
      assert s == [s[0]] + s[1..];
    }
  }

  lemma {:induction false} AscendingTail(less: (Digest, Digest) -> bool, s: seq<Historical>)
    requires Ascending(less, s) && s != []
    ensures Ascending(less, s[1..])
  {
    forall i, j | 0 <= i < j < |s[1..]| ensures Before(less, s[1..][i].reference, s[1..][j].reference) {
      assert Before(less, s[i + 1].reference, s[j + 1].reference);
    }
  }

  lemma {:induction false} InsertAscends(less: (Digest, Digest) -> bool, x: Historical, s: seq<Historical>)
    requires TotalOrder(less) && Ascending(less, s)
    requires forall y :: y in s ==> y.reference != x.reference
    ensures Ascending(less, Insert(less, x, s))
  {
    if s != [] && !RefLess(less, x.reference, s[0].reference) {
      AscendingTail(less, s);
      InsertAscends(less, x, s[1..]);
      var rest := Insert(less, x, s[1..]);
      forall j | 0 <= j < |rest| ensures Before(less, s[0].reference, rest[j].reference) {
        InsertHas(less, x, s[1..], rest[j]);
        if rest[j] == x {
          assert s[0].reference != x.reference;
        } else {
          var k :| 0 <= k < |s[1..]| && s[1..][k] == rest[j];
          assert Before(less, s[0].reference, s[k + 1].reference);
        }
      }
      AscendingCons(less, s[0], rest);
    } else if s != [] {
      forall j | 0 <= j < |s| ensures Before(less, x.reference, s[j].reference) {
        if j > 0 {
          assert Before(less, s[0].reference, s[j].reference);
          BeforeTransitive(less, x.reference, s[0].reference, s[j].reference);
        }
      }
      AscendingCons(less, x, s);
    }
  }

  lemma {:induction false} AscendingCons(less: (Digest, Digest) -> bool, x: Historical, s: seq<Historical>)
    requires Ascending(less, s) && forall j :: 0 <= j < |s| ==> Before(less, x.reference, s[j].reference)
    ensures Ascending(less, [x] + s)
  {
  }

  lemma {:induction false} BeforeTransitive(less: (Digest, Digest) -> bool, a: InputRef, b: InputRef, c: InputRef)
    requires TotalOrder(less) && Before(less, a, b) && Before(less, b, c)
    ensures Before(less, a, c)
  {
  }

  /** Sorting loses and invents nothing, and states under distinct references come out strictly ascending. */
  lemma {:induction false} SortedMeans(less: (Digest, Digest) -> bool, s: seq<Historical>)
    requires TotalOrder(less) && DistinctRefs(s)
    ensures Ascending(less, SortedBy(less, s))
    ensures forall y :: y in SortedBy(less, s) <==> y in s
  {
    if s != [] {
      var rest := s[1..];
      assert DistinctRefs(rest) by {
        forall i, j | 0 <= i < j < |rest| ensures rest[i].reference != rest[j].reference {
          assert s[i + 1].reference != s[j + 1].reference;
        }
      }
      SortedMeans(less, rest);
      forall y | y in SortedBy(less, rest) ensures y.reference != s[0].reference {
        var k :| 0 <= k < |rest| && rest[k] == y;
        assert s[0].reference != s[k + 1].reference;
      }
      InsertAscends(less, s[0], SortedBy(less, rest));
      forall y ensures y in SortedBy(less, s) <==> y in s {
        InsertHas(less, s[0], SortedBy(less, rest), y);
        assert s == [s[0]] + rest;
      }
    }
  }

  // ----- finishing a history report

  function Creation(witnessStates: map<Digest, WitnessState>, p: Placed): WitnessState {
    if p.creator in witnessStates then witnessStates[p.creator] else NoState
  }

  ghost predicate ConsumedBy(consumed: seq<Consumption>, selected: set<Digest>, ref: InputRef, p: Placed) {
    exists i :: 0 <= i < |consumed| && consumed[i].consumer in selected && consumed[i].input == ref && consumed[i].output == p
  }

  ghost predicate LiveOf(states: map<InputRef, Placed>, selected: set<Digest>, ref: InputRef, p: Placed) {
    ref in states && ref.op in selected && states[ref] == p
  }

  /** Every state found is material, carries its creation, and no reference is found twice. */
  ghost predicate Found(consumed: seq<Consumption>, states: map<InputRef, Placed>, selected: set<Digest>,
                        witnessStates: map<Digest, WitnessState>, found: seq<Historical>) {
    && DistinctRefs(found)
    && forall h :: h in found ==>
         && (ConsumedBy(consumed, selected, h.reference, h.output) || LiveOf(states, selected, h.reference, h.output))
         && CreatedIn(witnessStates, h.output, h.created)
  }

  /** The state of the transaction that the output was created under, if it was one of the witnesses. */
  ghost predicate CreatedIn(witnessStates: map<Digest, WitnessState>, p: Placed, created: WitnessState) {
    if p.creator in witnessStates then created == witnessStates[p.creator] else created == NoState
  }

  ghost predicate Covers(found: seq<Historical>, ref: InputRef) {
    exists i :: 0 <= i < |found| && found[i].reference == ref
  }

  /** Adds a state unless its reference was added before. */
  method Add(complete: bool, seen: set<InputRef>, found: seq<Historical>, h: Historical) returns (seen': set<InputRef>, found': seq<Historical>)
    requires forall ref :: ref in seen <==> Covers(found, ref)
    requires DistinctRefs(found)
    ensures forall ref :: ref in seen' <==> Covers(found', ref)
    ensures DistinctRefs(found')
    ensures forall x :: x in found' ==> x in found || (complete && x == h)
    ensures complete ==> Covers(found', h.reference)
    ensures forall ref :: Covers(found, ref) ==> Covers(found', ref)
    ensures !complete ==> found' == found
  {
    if !complete || h.reference in seen {
      return seen, found;
    }
    seen', found' := seen + {h.reference}, found + [h];
    assert found'[|found|] == h;
    forall ref ensures ref in seen' <==> Covers(found', ref) {
      if Covers(found, ref) {
        var i :| 0 <= i < |found| && found[i].reference == ref;
        assert found'[i].reference == ref;
      }
      if Covers(found', ref) {
        var i :| 0 <= i < |found'| && found'[i].reference == ref;
        assert i == |found| || found[i].reference == ref;
      }
    }
    forall i, j | 0 <= i < j < |found'| ensures found'[i].reference != found'[j].reference {
      assert j == |found| ==> Covers(found, found[i].reference);
    }
  }

  /** The states consumed by selected operations. */
  method AddConsumed(consumed: seq<Consumption>, ghost states: map<InputRef, Placed>, selected: set<Digest>,
                     witnessStates: map<Digest, WitnessState>, complete: bool)
    returns (seen: set<InputRef>, found: seq<Historical>)
    ensures forall ref :: ref in seen <==> Covers(found, ref)
    ensures Found(consumed, states, selected, witnessStates, found)
    ensures complete ==> forall ref, p :: ConsumedBy(consumed, selected, ref, p) ==> Covers(found, ref)
    ensures !complete ==> found == []
  {
    seen, found := {}, [];
    for i := 0 to |consumed|
      invariant forall ref :: ref in seen <==> Covers(found, ref)
      invariant Found(consumed, states, selected, witnessStates, found)
      invariant complete ==> forall k :: 0 <= k < i && consumed[k].consumer in selected ==> Covers(found, consumed[k].input)
      invariant !complete ==> found == []
    {
      var c := consumed[i];
      if c.consumer !in selected {
        continue;
      }
      assert ConsumedBy(consumed, selected, c.input, c.output);
      seen, found := Add(complete, seen, found, Historical(c.input, c.output, Creation(witnessStates, c.output)));
    }
  }

  /** Where a prepared transaction really has the output, or None when it has not. */
  function PreparedOutput(prepared: map<Digest, Tx>, p: Placed): Option<TxOut>
    requires p.outpoint.txid in prepared
  {
    if p.outpoint.vout >= |prepared[p.outpoint.txid].outputs| then None
    else Some(prepared[p.outpoint.txid].outputs[p.outpoint.vout])
  }

  /** Output `at` of a prepared transaction. */
  ghost predicate InPrepared(prepared: map<Digest, Tx>, at: Outpoint, x: TxOut) {
    at.txid in prepared && at.vout < |prepared[at.txid].outputs| && prepared[at.txid].outputs[at.vout] == x
  }

  ghost predicate MissingOutput(states: map<InputRef, Placed>, selected: set<Digest>, prepared: map<Digest, Tx>, ref: InputRef) {
    && ref in states && ref.op in selected
    && states[ref].outpoint.txid in prepared && states[ref].outpoint.vout >= |prepared[states[ref].outpoint.txid].outputs|
  }

  /** Builds the report. It fails only when a selected live output points behind
      the outputs of its prepared transaction. */
  method Finish(collector: Collector, selected: set<Digest>, states: map<InputRef, Placed>, prepared: map<Digest, Tx>, complete: bool,
                less: (Digest, Digest) -> bool) returns (r: Result<HistoryReport, Failure>)
    requires TotalOrder(less)
    ensures r.Err? <==> exists ref :: MissingOutput(states, selected, prepared, ref)
    ensures r.Err? ==> r.error == OutpointUnknown
    ensures r.Ok? ==>
              && r.value.consumers == collector.consumed
              && Ascending(less, r.value.historical)
              && Found(collector.consumed, states, selected, collector.witnessStates, r.value.historical)
              && (complete ==> forall ref, p ::
                    ConsumedBy(collector.consumed, selected, ref, p) || LiveOf(states, selected, ref, p) ==> Covers(r.value.historical, ref))
              && (!complete ==> r.value.historical == [])
              && (forall x :: x in r.value.prepared <==> PreparedState(states, selected, prepared, x))
  {
    var seen, found := AddConsumed(collector.consumed, states, selected, collector.witnessStates, complete);
    var preparedStates: seq<Current> := [];
    var left := states.Keys;
    while left != {}
      invariant left <= states.Keys
      invariant forall ref :: ref in seen <==> Covers(found, ref)
      invariant Found(collector.consumed, states, selected, collector.witnessStates, found)
      invariant complete ==> forall ref, p :: ConsumedBy(collector.consumed, selected, ref, p) ==> Covers(found, ref)
      invariant complete ==> forall ref :: ref in states && ref !in left && ref.op in selected ==> Covers(found, ref)
      invariant !complete ==> found == []
      invariant forall ref :: ref !in left ==> !MissingOutput(states, selected, prepared, ref)
      invariant forall x :: x in preparedStates <==> PreparedState(states, selected, prepared, x) && x.reference !in left
      decreases |left|
    {
      var ref :| ref in left;
      left := left - {ref};
      if ref.op !in selected {
        continue;
      }
      var output := states[ref];
      assert LiveOf(states, selected, ref, output);
      seen, found := Add(complete, seen, found, Historical(ref, output, Creation(collector.witnessStates, output)));
      if output.outpoint.txid !in prepared {
        continue;
      }
      var txOut := PreparedOutput(prepared, output);
      if txOut.None? {
        assert MissingOutput(states, selected, prepared, ref);
        return Err(OutpointUnknown);
      }
      preparedStates := preparedStates + [Current(ref, output, txOut.value.value, txOut.value.script)];
    }
    SortedMeans(less, found);
    SortingKeeps(less, collector.consumed, states, selected, collector.witnessStates, found);
    return Ok(HistoryReport(collector.consumed, SortedBy(less, found), preparedStates));
  }

  /** A selected live output that a prepared transaction carries, with what it carries. */
  ghost predicate PreparedState(states: map<InputRef, Placed>, selected: set<Digest>, prepared: map<Digest, Tx>, x: Current) {
    LiveOf(states, selected, x.reference, x.output) && InPrepared(prepared, x.output.outpoint, TxOut(x.value, x.script))
  }

  lemma {:induction false} SortingKeeps(less: (Digest, Digest) -> bool, consumed: seq<Consumption>, states: map<InputRef, Placed>, selected: set<Digest>,
                     witnessStates: map<Digest, WitnessState>, found: seq<Historical>)
    requires TotalOrder(less) && Found(consumed, states, selected, witnessStates, found)
    ensures Found(consumed, states, selected, witnessStates, SortedBy(less, found))
    ensures forall ref :: Covers(found, ref) ==> Covers(SortedBy(less, found), ref)
    ensures found == [] ==> SortedBy(less, found) == []
  {
    SortedMeans(less, found);
    var sorted := SortedBy(less, found);
    AscendingDistinct(less, sorted);
    forall ref | Covers(found, ref) ensures Covers(sorted, ref) {
      var i :| 0 <= i < |found| && found[i].reference == ref;
      assert found[i] in sorted;
      var j :| 0 <= j < |sorted| && sorted[j] == found[i];
      assert sorted[j].reference == ref;
    }
  }

  lemma {:induction false} AscendingDistinct(less: (Digest, Digest) -> bool, s: seq<Historical>)
    requires TotalOrder(less) && Ascending(less, s)
    ensures DistinctRefs(s)
  {
    forall i, j | 0 <= i < j < |s| ensures s[i].reference != s[j].reference {
      assert Before(less, s[i].reference, s[j].reference);
    }
  }

  // ----- exactness over accepted histories

  /** The `k`-th input of the `i`-th operation, as the collector records it. */
  ghost predicate Consumes(log: seq<Event>, i: int, k: int, c: Consumption) {
    && 0 <= i < |log| && 0 <= k < |log[i].spent| && k < |log[i].transition.inputs|
    && c == Consumption(log[i].transition.inputs[k], log[i].op, log[i].host.id, log[i].host.closer.txid, log[i].host.closer.state, log[i].spent[k])
  }

  lemma {:induction false} ConsumptionsHave(log: seq<Event>, c: Consumption)
    requires SoundLog(log)
    ensures c in Consumptions(log) <==> exists i, k :: Consumes(log, i, k, c)
  {
    hide SoundEvent, TransitionId;
    if log != [] {
      var n := |log| - 1;
      var before, e := log[..n], log[n];
      assert |e.spent| == |e.transition.inputs| by { SpentWithInputs(e); }
      ConsumptionsHave(before, c);
      var last := Recorded(e.transition.inputs, e.spent, e.op, e.host);
      assert Consumptions(log) == Consumptions(before) + last;
      if c in last {
        var k :| 0 <= k < |last| && last[k] == c;
        assert Consumes(log, n, k, c);
      }
      if c in Consumptions(before) {
        var i, k :| Consumes(before, i, k, c);
        assert Consumes(log, i, k, c);
      }
      if i, k :| Consumes(log, i, k, c) {
        assert i == n ==> last[k] == c;
        assert i < n ==> Consumes(before, i, k, c);
      }
    }
  }

  lemma {:induction false} SpentWithInputs(e: Event)
    requires SoundEvent(e)
    ensures |e.spent| == |e.transition.inputs|
  {
  }

  /** A selected operation of the log spent the output. */
  ghost predicate SpentBySelected(log: seq<Event>, selected: set<Digest>, ref: InputRef, p: Placed) {
    exists i, k :: SpendsAs(log, i, k, ref, p) && log[i].op in selected
  }

  ghost predicate SpendsAs(log: seq<Event>, i: int, k: int, ref: InputRef, p: Placed) {
    0 <= i < |log| && 0 <= k < |log[i].spent| && k < |log[i].transition.inputs| && log[i].transition.inputs[k] == ref && log[i].spent[k] == p
  }

  lemma {:induction false} ConsumedIsSpent(log: seq<Event>, selected: set<Digest>, ref: InputRef, p: Placed)
    requires SoundLog(log)
    ensures ConsumedBy(Consumptions(log), selected, ref, p) <==> SpentBySelected(log, selected, ref, p)
  {
    hide SoundEvent;
    var all := Consumptions(log);
    if ConsumedBy(all, selected, ref, p) {
      var n :| 0 <= n < |all| && all[n].consumer in selected && all[n].input == ref && all[n].output == p;
      ConsumptionsHave(log, all[n]);
      var i, k :| Consumes(log, i, k, all[n]);
      assert SpendsAs(log, i, k, ref, p);
    }
    if SpentBySelected(log, selected, ref, p) {
      var i, k :| SpendsAs(log, i, k, ref, p) && log[i].op in selected;
      var c := Consumption(ref, log[i].op, log[i].host.id, log[i].host.closer.txid, log[i].host.closer.state, p);
      assert Consumes(log, i, k, c);
      ConsumptionsHave(log, c);
      var n :| 0 <= n < |all| && all[n] == c;
      assert all[n].input == ref;
    }
  }

  /** What was spent is not live, and was spent as one output. */
  lemma {:induction false} SpentOnce(g: Genesis, l: Ledger, i: int, k: int, ref: InputRef, p: Placed, j: int, n: int, q: Placed)
    requires Safe(g, l) && SpendsAs(l.log, i, k, ref, p)
    ensures ref !in l.states
    ensures SpendsAs(l.log, j, n, ref, q) ==> p == q
  {
    hide GenesisId, TransitionId, Traced, Bundled, Graphed, InputMapCommits, TxSpends;
    assert SoundEvent(l.log[i]);
    assert Spends(l.log[i], ref);
    if SpendsAs(l.log, j, n, ref, q) {
      assert Spends(l.log[j], ref);
      assert i == j;
      assert Distinct(l.log[i].transition.inputs);
    }
  }

  lemma {:induction false} SelectedSpendsOnce(g: Genesis, l: Ledger, selected: set<Digest>, ref: InputRef, p: Placed, q: Placed)
    requires Safe(g, l) && SpentBySelected(l.log, selected, ref, p)
    ensures ref !in l.states
    ensures SpentBySelected(l.log, selected, ref, q) ==> p == q
  {
    hide Safe;
    var i, k :| SpendsAs(l.log, i, k, ref, p) && l.log[i].op in selected;
    SpentOnce(g, l, i, k, ref, p, i, k, p);
    if SpentBySelected(l.log, selected, ref, q) {
      var j, n :| SpendsAs(l.log, j, n, ref, q) && l.log[j].op in selected;
      SpentOnce(g, l, i, k, ref, p, j, n, q);
    }
  }

  /** Material of one reference is one output, spent or live. */
  lemma {:induction false} SameMaterial(g: Genesis, l: Ledger, selected: set<Digest>, ref: InputRef, p: Placed, q: Placed)
    requires Safe(g, l)
    requires SpentBySelected(l.log, selected, ref, p) || LiveOf(l.states, selected, ref, p)
    requires SpentBySelected(l.log, selected, ref, q) || LiveOf(l.states, selected, ref, q)
    ensures p == q
  {
    hide Safe, SpentBySelected;
    if SpentBySelected(l.log, selected, ref, p) {
      SelectedSpendsOnce(g, l, selected, ref, p, q);
    } else if SpentBySelected(l.log, selected, ref, q) {
      SelectedSpendsOnce(g, l, selected, ref, q, p);
    }
  }

  /** Exactness: for a complete graph the reported states are, strictly ascending, the
      disjoint union of what selected operations spent and what they left live. */
  lemma {:induction false} HistoricalIsExact(g: Genesis, l: Ledger, selected: set<Digest>, witnessStates: map<Digest, WitnessState>, historical: seq<Historical>,
                          ref: InputRef, p: Placed)
    requires Safe(g, l) && Found(Consumptions(l.log), l.states, selected, witnessStates, historical)
    requires forall r, q :: ConsumedBy(Consumptions(l.log), selected, r, q) || LiveOf(l.states, selected, r, q) ==> Covers(historical, r)
    ensures (exists h :: h in historical && h.reference == ref && h.output == p) <==>
            SpentBySelected(l.log, selected, ref, p) || LiveOf(l.states, selected, ref, p)
    ensures !(SpentBySelected(l.log, selected, ref, p) && LiveOf(l.states, selected, ref, p))
  {
    hide Safe, SpentBySelected, ConsumedBy, Consumptions;
    assert SoundLog(l.log) by { SafeParts(g, l); }
    hide SoundLog;
    ConsumedIsSpent(l.log, selected, ref, p);
    if SpentBySelected(l.log, selected, ref, p) {
      SelectedSpendsOnce(g, l, selected, ref, p, p);
    }
    if SpentBySelected(l.log, selected, ref, p) || LiveOf(l.states, selected, ref, p) {
      var n :| 0 <= n < |historical| && historical[n].reference == ref;
      assert historical[n] in historical;
      ConsumedIsSpent(l.log, selected, ref, historical[n].output);
      SameMaterial(g, l, selected, ref, p, historical[n].output);
    }
  }

  // ----- the outputs that are still there

  /** A live output is kept, left out because its spend is history, or refuses the whole consignment. */
  function Projection(resolver: Option<Resolver>, prepared: map<Digest, Tx>, omitSpent: bool, p: Placed): Result<Option<TxOut>, Failure> {
    if p.outpoint.txid in prepared then
      if PreparedOutput(prepared, p).None? then Err(OutpointUnknown) else Ok(PreparedOutput(prepared, p))
    else if resolver.None? || resolver.value.outpoint(p.outpoint).None? then Err(OutpointUnknown)
    else
      var evidence := resolver.value.outpoint(p.outpoint).value;
      if !evidence.known || !evidence.present then Err(OutpointUnknown)
      else if !evidence.spent then Ok(Some(TxOut(0, [])))
      else if omitSpent then Ok(None)
      else Err(OutpointSpend)
  }

  /** The chain knows the output, it is there, and it is spent or not. */
  ghost predicate IsThere(resolver: Option<Resolver>, at: Outpoint, spent: bool) {
    && resolver.Some? && resolver.value.outpoint(at).Some?
    && var answer := resolver.value.outpoint(at).value;
       answer.known && answer.present && answer.spent == spent
  }

  /** A live output stands: in a prepared transaction, or on the chain, where only history may be spent. */
  ghost predicate Stands(resolver: Option<Resolver>, prepared: map<Digest, Tx>, history: bool, at: Outpoint) {
    if at.txid in prepared then at.vout < |prepared[at.txid].outputs|
    else IsThere(resolver, at, false) || (history && IsThere(resolver, at, true))
  }

  /** What a live output shows: what the prepared transaction has there, or nothing for an unspent one. */
  ghost predicate Carries(resolver: Option<Resolver>, prepared: map<Digest, Tx>, at: Outpoint, x: TxOut) {
    if at.txid in prepared then InPrepared(prepared, at, x)
    else IsThere(resolver, at, false) && x == TxOut(0, [])
  }

  /** Why a live output does not stand: it is spent and no history, or not known to be there. */
  ghost predicate Falls(resolver: Option<Resolver>, prepared: map<Digest, Tx>, history: bool, at: Outpoint, e: Failure) {
    if at.txid in prepared then at.vout >= |prepared[at.txid].outputs| && e == OutpointUnknown
    else if IsThere(resolver, at, true) then !history && e == OutpointSpend
    else !IsThere(resolver, at, false) && e == OutpointUnknown
  }

  /** The three cases of a projected output, exactly. */
  lemma {:induction false} ProjectionExactly(resolver: Option<Resolver>, prepared: map<Digest, Tx>, history: bool, p: Placed)
    ensures Projection(resolver, prepared, history, p).Ok? <==> Stands(resolver, prepared, history, p.outpoint)
    ensures forall x :: Projection(resolver, prepared, history, p) == Ok(Some(x)) <==> Carries(resolver, prepared, p.outpoint, x)
    ensures forall e :: Projection(resolver, prepared, history, p) == Err(e) <==> Falls(resolver, prepared, history, p.outpoint, e)
  {
  }

  /** Outputs whose spend is history: of historical operations, and of genesis when there is nothing else. */
  ghost predicate IsHistory(historical: set<Digest>, genesisOnly: bool, contract: Digest, ref: InputRef) {
    ref.op in historical || (genesisOnly && ref.op == contract)
  }

  ghost predicate StandsAsLive(resolver: Option<Resolver>, prepared: map<Digest, Tx>, historical: set<Digest>, genesisOnly: bool, contract: Digest,
                               states: map<InputRef, Placed>, ref: InputRef) {
    ref in states ==> Stands(resolver, prepared, IsHistory(historical, genesisOnly, contract, ref), states[ref].outpoint)
  }

  ghost predicate FallsAsLive(resolver: Option<Resolver>, prepared: map<Digest, Tx>, historical: set<Digest>, genesisOnly: bool, contract: Digest,
                              states: map<InputRef, Placed>, ref: InputRef, e: Failure) {
    ref in states && Falls(resolver, prepared, IsHistory(historical, genesisOnly, contract, ref), states[ref].outpoint, e)
  }

  ghost predicate CurrentState(resolver: Option<Resolver>, prepared: map<Digest, Tx>, states: map<InputRef, Placed>, x: Current) {
    && x.reference in states && states[x.reference] == x.output
    && Carries(resolver, prepared, x.output.outpoint, TxOut(x.value, x.script))
  }

  /** The current states: every live output that is unspent or prepared, with what its prepared
      transaction has there. They are given when every live output stands, else the error
      is that of one that does not. */
  method CurrentStates(resolver: Option<Resolver>, prepared: map<Digest, Tx>, historical: set<Digest>, genesisOnly: bool, contract: Digest,
                       states: map<InputRef, Placed>) returns (r: Result<seq<Current>, Failure>)
    ensures r.Ok? <==> forall ref :: StandsAsLive(resolver, prepared, historical, genesisOnly, contract, states, ref)
    ensures r.Err? ==> exists ref :: FallsAsLive(resolver, prepared, historical, genesisOnly, contract, states, ref, r.error)
    ensures r.Ok? ==> forall x :: x in r.value <==> CurrentState(resolver, prepared, states, x)
  {
    hide Stands, Falls, Carries;
    var current: seq<Current> := [];
    var left := states.Keys;
    while left != {}
      invariant left <= states.Keys
      invariant forall ref :: ref !in left ==> StandsAsLive(resolver, prepared, historical, genesisOnly, contract, states, ref)
      invariant forall x :: x in current <==> CurrentState(resolver, prepared, states, x) && x.reference !in left
      decreases |left|
    {
      var ref :| ref in left;
      left := left - {ref};
      var output := states[ref];
      var omitSpent := ref.op in historical || (genesisOnly && ref.op == contract);
      ProjectionExactly(resolver, prepared, omitSpent, output);
      var projection := Projection(resolver, prepared, omitSpent, output);
      if projection.Err? {
        assert FallsAsLive(resolver, prepared, historical, genesisOnly, contract, states, ref, projection.error);
        FallsIsNoStand(resolver, prepared, omitSpent, output.outpoint, projection.error);
        assert !StandsAsLive(resolver, prepared, historical, genesisOnly, contract, states, ref);
        return Err(projection.error);
      }
      if projection.value.None? {
        assert forall x :: !Carries(resolver, prepared, output.outpoint, x);
        continue;
      }
      current := current + [Current(ref, output, projection.value.value.value, projection.value.value.script)];
    }
    return Ok(current);
  }

  lemma {:induction false} FallsIsNoStand(resolver: Option<Resolver>, prepared: map<Digest, Tx>, history: bool, at: Outpoint, e: Failure)
    requires Falls(resolver, prepared, history, at, e)
    ensures !Stands(resolver, prepared, history, at)
  {
  }
}
