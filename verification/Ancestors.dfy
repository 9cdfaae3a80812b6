/** The search for the history behind the bundles a transfer delivers. */
module Ancestors {
  import opened Bytes
  import opened Catalog
  import opened Collections
  import opened Operations
  import opened Outputs
  import opened Safety
  import opened Schemas
  import opened Symbols
  import opened Validator
  import opened Wrappers
  import Anchor

  type Graph = map<Digest, Node>

  function Parents(graph: Graph, op: Digest): seq<Digest> {
    if op in graph then graph[op].parents else []
  }

  /** A path from one of the starting operations, parent by parent, at least one step long. */
  ghost predicate Lineage(graph: Graph, starts: set<Digest>, op: Digest, path: seq<Digest>) {
    && |path| >= 2 && path[0] in starts && path[|path| - 1] == op
    && forall i :: 1 <= i < |path| ==> IsParent(graph, path[i - 1], path[i])
  }

  ghost predicate IsParent(graph: Graph, op: Digest, parent: Digest) {
    op in graph && parent in graph[op].parents
  }

  ghost predicate Ancestor(graph: Graph, starts: set<Digest>, op: Digest) {
    exists path :: Lineage(graph, starts, op, path)
  }

  ghost predicate Expanded(graph: Graph, op: Digest, within: set<Digest>) {
    forall p :: p in Parents(graph, op) ==> p in within
  }

  /** The search invariant: everything met is an ancestor, and the parents of all
      starts and of everything settled are settled or pending. */
  ghost predicate Searching(graph: Graph, starts: set<Digest>, seen: set<Digest>, pending: set<Digest>) {
    && seen <= graph.Keys
    && (forall op :: op in seen + pending ==> Ancestor(graph, starts, op))
    && (forall op :: op in starts + seen ==> Expanded(graph, op, seen + pending))
  }

  lemma {:induction false} ParentIsAncestor(graph: Graph, starts: set<Digest>, op: Digest, p: Digest)
    requires op in starts || Ancestor(graph, starts, op)
    requires p in Parents(graph, op)
    ensures Ancestor(graph, starts, p)
  {
    if op in starts {
      assert Lineage(graph, starts, p, [op, p]);
    } else {
      var path :| Lineage(graph, starts, op, path);
      assert Lineage(graph, starts, p, path + [p]);
    }
  }

  /** A set that holds the parents of the starts and of its own members holds all ancestors. */
  lemma {:induction false} ClosedHasAncestors(graph: Graph, starts: set<Digest>, seen: set<Digest>, op: Digest, path: seq<Digest>)
    requires forall o :: o in starts + seen ==> Expanded(graph, o, seen)
    requires Lineage(graph, starts, op, path)
    ensures op in seen
    decreases |path|
  {
    var before := path[..|path| - 1];
    if |path| > 2 {
      ClosedHasAncestors(graph, starts, seen, path[|path| - 2], before);
    }
    var last := path[|path| - 2];
    assert last in starts + seen;
    assert Expanded(graph, last, seen) && path[|path| - 1] in Parents(graph, last);
  }

  lemma {:induction false} NothingPending(graph: Graph, starts: set<Digest>, seen: set<Digest>)
    requires Searching(graph, starts, seen, {})
    ensures forall op :: op in seen <==> Ancestor(graph, starts, op)
  {
    assert seen + {} == seen;
    forall op | Ancestor(graph, starts, op) ensures op in seen {
      var path :| Lineage(graph, starts, op, path);
      ClosedHasAncestors(graph, starts, seen, op, path);
    }
  }

  lemma {:induction false} SearchContinues(graph: Graph, starts: set<Digest>, seen: set<Digest>, rest: set<Digest>, op: Digest)
    requires Searching(graph, starts, seen, rest + {op}) && op in graph
    ensures Searching(graph, starts, seen + {op}, rest + Elements(Parents(graph, op)))
  {
    forall p | p in Parents(graph, op) ensures Ancestor(graph, starts, p) {
      ParentIsAncestor(graph, starts, op, p);
    }
    var next := seen + {op} + (rest + Elements(Parents(graph, op)));
    assert seen + (rest + {op}) <= next;
    forall o | o in starts + (seen + {op}) ensures Expanded(graph, o, next) {
      if o in starts + seen {
        assert Expanded(graph, o, seen + (rest + {op}));
      }
    }
  }

  lemma {:induction false} SearchSkips(graph: Graph, starts: set<Digest>, seen: set<Digest>, rest: set<Digest>, op: Digest)
    requires Searching(graph, starts, seen, rest + {op}) && op in seen
    ensures Searching(graph, starts, seen, rest)
  {
    assert seen + (rest + {op}) == seen + rest;
  }

  /** Of what was settled, the part outside the protected bundles. */
  ghost predicate Outside(graph: Graph, protected: set<Digest>, seen: set<Digest>, historical: set<Digest>) {
    forall op :: op in historical <==> op in seen && op in graph && graph[op].bundle !in protected
  }

  lemma {:induction false} SeenKnown(graph: Graph, starts: set<Digest>, seen: set<Digest>)
    requires Searching(graph, starts, seen, {})
    ensures seen <= graph.Keys
  {
  }

  /** The ancestors outside the protected bundles. */
  ghost predicate HistoricalSide(graph: Graph, starts: set<Digest>, protected: set<Digest>, historical: set<Digest>) {
    forall op :: op in historical <==> Ancestor(graph, starts, op) && op in graph && graph[op].bundle !in protected
  }

  lemma {:induction false} SearchFacts(graph: Graph, starts: set<Digest>, seen: set<Digest>, rest: set<Digest>, op: Digest)
    requires Searching(graph, starts, seen, rest + {op})
    ensures Ancestor(graph, starts, op) && seen <= graph.Keys
  {
  }

  /** The worklist: settles every ancestor of the pending operations' children. */
  method Settle(graph: Graph, protected: set<Digest>, first: seq<Digest>, ghost starts: set<Digest>)
    returns (r: Result<set<Digest>, Failure>, seen: set<Digest>)
    requires Searching(graph, starts, {}, Elements(first))
    ensures r.Err? <==> exists op :: op !in graph && Ancestor(graph, starts, op)
    ensures r.Err? ==> r == Err(Refused(Unresolved))
    ensures r.Ok? ==> HistoricalSide(graph, starts, protected, r.value) && forall op :: op in seen <==> Ancestor(graph, starts, op)
  {
    hide Searching, Ancestor;
    var pending := first;
    seen := {};
    var historical: set<Digest> := {};
    while pending != []
      invariant Searching(graph, starts, seen, Elements(pending))
      invariant Outside(graph, protected, seen, historical)
      decreases |graph.Keys - seen|, |pending|
    {
      var id := pending[|pending| - 1];
      LastElement(pending);
      pending := pending[..|pending| - 1];
      if id in seen {
        SearchSkips(graph, starts, seen, Elements(pending), id);
        continue;
      }
      SearchFacts(graph, starts, seen, Elements(pending), id);
      if id !in graph {
        return Err(Refused(Unresolved)), seen;
      }
      FewerLeft(graph.Keys, seen, id);
      SearchContinues(graph, starts, seen, Elements(pending), id);
      seen := seen + {id};
      if graph[id].bundle !in protected {
        historical := historical + {id};
      }
      ElementsConcat(pending, graph[id].parents);
      pending := pending + graph[id].parents;
    }
    assert Elements(pending) == {};
    NothingPending(graph, starts, seen);
    assert seen <= graph.Keys by { SeenKnown(graph, starts, seen); }
    return Ok(historical), seen;
  }

  // ----- which bundles are protected

  ghost predicate IsTip(graph: Graph, op: Digest) {
    op in graph && forall k :: k in graph ==> op !in graph[k].parents
  }

  ghost predicate OnlyTip(graph: Graph, op: Digest) {
    IsTip(graph, op) && forall k :: IsTip(graph, k) ==> k == op
  }

  /** The operations of the protected bundles. */
  ghost predicate StartsAre(bundleOps: map<Digest, seq<Digest>>, protected: set<Digest>, starts: set<Digest>) {
    forall op :: op in starts <==> exists b :: b in protected && op in OpsOf(bundleOps, b)
  }

  method AllParents(graph: Graph) returns (parents: set<Digest>)
    ensures forall p :: p in parents <==> exists k :: k in graph && p in graph[k].parents
  {
    parents := {};
    var left := graph.Keys;
    while left != {}
      invariant left <= graph.Keys
      invariant forall p :: p in parents <==> exists k :: k in graph && k !in left && p in graph[k].parents
      decreases |left|
    {
      var k :| k in left;
      parents := parents + Elements(graph[k].parents);
      left := left - {k};
    }
  }

  /** The operations nothing builds on, counted, and one of them. */
  method Tips(graph: Graph) returns (count: nat, tip: Digest)
    ensures count == 1 ==> OnlyTip(graph, tip)
    ensures (exists op :: OnlyTip(graph, op)) ==> count == 1
  {
    var parents := AllParents(graph);
    count, tip := 0, ZERO;
    var left := graph.Keys;
    while left != {}
      invariant left <= graph.Keys
      invariant count == 0 ==> forall op :: IsTip(graph, op) ==> op in left
      invariant count == 1 ==> IsTip(graph, tip) && tip !in left && forall op :: IsTip(graph, op) && op !in left ==> op == tip
      invariant count > 1 ==> exists a, b :: IsTip(graph, a) && IsTip(graph, b) && a != b
      decreases |left|
    {
      var k :| k in left;
      assert IsTip(graph, k) <==> k !in parents;
      if k !in parents {
        assert count == 1 ==> tip != k;
        tip := k;
        count := count + 1;
      }
      left := left - {k};
    }
  }

  /** The operations of the protected bundles and what they spent from. */
  method Deliveries(graph: Graph, bundleOps: map<Digest, seq<Digest>>, protected: set<Digest>) returns (starts: set<Digest>, first: seq<Digest>)
    ensures StartsAre(bundleOps, protected, starts)
    ensures Searching(graph, starts, {}, Elements(first))
  {
    starts, first := {}, [];
    var left := protected;
    while left != {}
      invariant left <= protected
      invariant StartsAre(bundleOps, protected - left, starts)
      invariant ParentsAre(graph, starts, first)
      decreases |left|
    {
      var b :| b in left;
      var more := ParentsOfAll(graph, OpsOf(bundleOps, b));
      MoreStarts(bundleOps, protected - left, starts, b);
      MoreParents(graph, starts, first, Elements(OpsOf(bundleOps, b)), more);
      starts := starts + Elements(OpsOf(bundleOps, b));
      first := first + more;
      assert protected - left + {b} == protected - (left - {b});
      left := left - {b};
    }
    assert protected - left == protected;
    SearchStarts(graph, starts, first);
  }

  /** The list holds exactly the parents of the operations. */
  ghost predicate ParentsAre(graph: Graph, ops: set<Digest>, list: seq<Digest>) {
    forall p :: p in list <==> exists op :: op in ops && p in Parents(graph, op)
  }

  lemma {:induction false} MoreStarts(bundleOps: map<Digest, seq<Digest>>, done: set<Digest>, starts: set<Digest>, b: Digest)
    requires StartsAre(bundleOps, done, starts)
    ensures StartsAre(bundleOps, done + {b}, starts + Elements(OpsOf(bundleOps, b)))
  {
  }

  lemma {:induction false} MoreParents(graph: Graph, a: set<Digest>, x: seq<Digest>, b: set<Digest>, y: seq<Digest>)
    requires ParentsAre(graph, a, x) && ParentsAre(graph, b, y)
    ensures ParentsAre(graph, a + b, x + y)
  {
  }

  lemma {:induction false} SearchStarts(graph: Graph, starts: set<Digest>, first: seq<Digest>)
    requires ParentsAre(graph, starts, first)
    ensures Searching(graph, starts, {}, Elements(first))
  {
    forall p | p in first ensures Ancestor(graph, starts, p) {
      var op :| op in starts && p in Parents(graph, op);
      ParentIsAncestor(graph, starts, op, p);
    }
  }

  method ParentsOfAll(graph: Graph, ops: seq<Digest>) returns (pending: seq<Digest>)
    ensures ParentsAre(graph, Elements(ops), pending)
  {
    pending := [];
    for i := 0 to |ops|
      invariant ParentsAre(graph, Elements(ops[..i]), pending)
    {
      LastElement(ops[..i + 1]);
      assert ops[..i + 1][..i] == ops[..i];
      MoreParents(graph, Elements(ops[..i]), pending, {ops[i]}, Parents(graph, ops[i]));
      pending := pending + Parents(graph, ops[i]);
    }
    assert ops[..|ops|] == ops;
  }

  /** The bundles a transfer protects: its terminals, or without any, the bundle of
      the only tip of a complete graph. */
  ghost predicate Protects(terminals: seq<Digest>, graph: Graph, bundleOps: map<Digest, seq<Digest>>, complete: bool, protected: set<Digest>) {
    if terminals != [] then protected == Elements(terminals)
    else if complete && exists op :: OnlyTip(graph, op) && OpsOf(bundleOps, graph[op].bundle) != [] then
      exists op :: OnlyTip(graph, op) && protected == {graph[op].bundle}
    else protected == {}
  }

  method Protected(terminals: seq<Digest>, graph: Graph, bundleOps: map<Digest, seq<Digest>>, complete: bool)
    returns (r: Result<set<Digest>, Failure>)
    ensures r.Err? <==> exists b :: b in terminals && OpsOf(bundleOps, b) == []
    ensures r.Err? ==> r == Err(Uncommitted(InvalidBundle))
    ensures r.Ok? ==> Protects(terminals, graph, bundleOps, complete, r.value)
  {
    var protected: set<Digest> := {};
    for i := 0 to |terminals|
      invariant protected == Elements(terminals[..i])
      invariant forall b :: b in terminals[..i] ==> OpsOf(bundleOps, b) != []
    {
      if |OpsOf(bundleOps, terminals[i])| == 0 {
        return Err(Uncommitted(InvalidBundle));
      }
      LastElement(terminals[..i + 1]);
      assert terminals[..i + 1][..i] == terminals[..i];
      protected := protected + {terminals[i]};
    }
    assert terminals[..|terminals|] == terminals;
    if protected == {} {
      NoElements(terminals);
      if !complete {
        return Ok({});
      }
      var count, tip := Tips(graph);
      if count != 1 || OpsOf(bundleOps, graph[tip].bundle) == [] {
        return Ok({});
      }
      return Ok({graph[tip].bundle});
    }
    return Ok(protected);
  }

  lemma {:induction false} NoElements(s: seq<Digest>)
    ensures Elements(s) == {} ==> s == []
  {
    assert s != [] ==> s[0] in Elements(s);
  }

  /** What the search reports: operations whose spent outputs may be left out, and
      the operations the delivered history is made of. */
  ghost predicate Searched(transfer: bool, terminals: seq<Digest>, graph: Graph, bundleOps: map<Digest, seq<Digest>>, complete: bool,
                           historical: set<Digest>, selected: set<Digest>) {
    if !transfer then historical == {} && selected == graph.Keys
    else
      exists protected, starts ::
        SearchedFrom(terminals, graph, bundleOps, complete, protected, starts) && Finds(graph, protected, starts, historical, selected)
  }

  ghost predicate SearchedFrom(terminals: seq<Digest>, graph: Graph, bundleOps: map<Digest, seq<Digest>>, complete: bool,
                               protected: set<Digest>, starts: set<Digest>) {
    Protects(terminals, graph, bundleOps, complete, protected) && StartsAre(bundleOps, protected, starts)
  }

  ghost predicate Finds(graph: Graph, protected: set<Digest>, starts: set<Digest>, historical: set<Digest>, selected: set<Digest>) {
    && HistoricalSide(graph, starts, protected, historical)
    && forall op :: op in selected <==> op in starts || Ancestor(graph, starts, op)
  }

  /** No path from the delivered operations leaves the graph. */
  ghost predicate Closed(graph: Graph) {
    forall op, p :: op in graph && p in graph[op].parents ==> p in graph
  }

  method HistoricalSideOps(transfer: bool, terminals: seq<Digest>, graph: Graph, bundleOps: map<Digest, seq<Digest>>, complete: bool)
    returns (r: Result<set<Digest>, Failure>, selected: set<Digest>)
    ensures r.Ok? ==> Searched(transfer, terminals, graph, bundleOps, complete, r.value, selected)
    ensures Closed(graph) ==> (r.Err? <==> transfer && exists b :: b in terminals && OpsOf(bundleOps, b) == [])
    ensures Closed(graph) && r.Err? ==> r == Err(Uncommitted(InvalidBundle))
  {
    if !transfer {
      return Ok({}), graph.Keys;
    }
    var bundles := Protected(terminals, graph, bundleOps, complete);
    if bundles.Err? {
      return Err(bundles.error), {};
    }
    var starts, first := Deliveries(graph, bundleOps, bundles.value);
    var seen;
    r, seen := Settle(graph, bundles.value, first, starts);
    selected := starts + seen;
    if r.Ok? {
      assert SearchedFrom(terminals, graph, bundleOps, complete, bundles.value, starts)
        && Finds(graph, bundles.value, starts, r.value, selected);
    }
    if Closed(graph) && r.Err? {
      var op :| op !in graph && Ancestor(graph, starts, op);
      AncestorsKnown(graph, starts, op);
    }
  }

  /** In a closed graph every ancestor is an operation of the graph. */
  lemma {:induction false} AncestorsKnown(graph: Graph, starts: set<Digest>, op: Digest)
    requires Closed(graph) && Ancestor(graph, starts, op)
    ensures op in graph
  {
    var path :| Lineage(graph, starts, op, path);
    assert path[|path| - 1] in Parents(graph, path[|path| - 2]);
  }

  lemma {:induction false} FindsExist(graph: Graph, protected: set<Digest>, starts: set<Digest>) returns (historical: set<Digest>, selected: set<Digest>)
    requires Closed(graph)
    ensures Finds(graph, protected, starts, historical, selected)
  {
    hide Lineage, Closed;
    var ancestors := set op | op in graph && Ancestor(graph, starts, op);
    historical := set op | op in ancestors && graph[op].bundle !in protected;
    selected := starts + ancestors;
    forall op | Ancestor(graph, starts, op) ensures op in ancestors {
      AncestorsKnown(graph, starts, op);
    }
  }

  lemma {:induction false} StartsExist(bundleOps: map<Digest, seq<Digest>>, protected: set<Digest>) returns (starts: set<Digest>)
    ensures StartsAre(bundleOps, protected, starts)
  {
    starts := set b, op | b in protected && op in OpsOf(bundleOps, b) :: op;
  }

  lemma {:induction false} ProtectedExist(terminals: seq<Digest>, graph: Graph, bundleOps: map<Digest, seq<Digest>>, complete: bool) returns (protected: set<Digest>)
    ensures Protects(terminals, graph, bundleOps, complete, protected)
  {
    protected := Elements(terminals);
    if terminals == [] && complete && exists op :: OnlyTip(graph, op) && OpsOf(bundleOps, graph[op].bundle) != [] {
      var op :| OnlyTip(graph, op) && OpsOf(bundleOps, graph[op].bundle) != [];
      protected := {graph[op].bundle};
    }
  }

  /** In a closed graph the search has an answer. */
  lemma {:induction false} SearchAnswers(transfer: bool, terminals: seq<Digest>, graph: Graph, bundleOps: map<Digest, seq<Digest>>, complete: bool)
    requires Closed(graph)
    ensures exists historical, selected :: Searched(transfer, terminals, graph, bundleOps, complete, historical, selected)
  {
    hide Closed, Protects, StartsAre, Finds;
    if transfer {
      var protected := ProtectedExist(terminals, graph, bundleOps, complete);
      var starts := StartsExist(bundleOps, protected);
      var historical, selected := FindsExist(graph, protected, starts);
      assert SearchedFrom(terminals, graph, bundleOps, complete, protected, starts) && Finds(graph, protected, starts, historical, selected);
      assert Searched(transfer, terminals, graph, bundleOps, complete, historical, selected);
    } else {
      assert Searched(transfer, terminals, graph, bundleOps, complete, {}, graph.Keys);
    }
  }

  // ----- on the graph of an accepted history

  /** Every parent stood in the graph before its child was added. */
  lemma {:induction false} ParentsComeFirst(g: Genesis, l: Ledger, i: nat, p: Digest)
    requires Safe(g, l) && i < |l.log| && p in Sources(l.log[i].transition.inputs)
    ensures p == GenesisId(g) || exists j :: 0 <= j < i && l.log[j].op == p
  {
    hide GenesisId, TransitionId, CanonicalTransition, From, SingleUse, Bundled, Graphed, Sources, Anchor.TxSpends, InputMapCommits;
    assert SoundEvent(l.log[i]);
    var inputs := l.log[i].transition.inputs;
    var k :| 0 <= k < |inputs| && Sources(inputs)[k] == p;
    assert Origin(g, l.log[..i], inputs[k], l.log[i].spent[k]);
    if p != GenesisId(g) {
      var j :| 0 <= j < |l.log[..i]| && Makes(l.log[..i][j], inputs[k], l.log[i].spent[k]);
      assert l.log[j].op == p;
    }
  }

  /** Nothing an accepted history spends from is missing in its graph, so the search
      never meets an unknown operation. */
  lemma {:induction false} GraphIsClosed(g: Genesis, l: Ledger)
    requires Safe(g, l)
    ensures Closed(l.graph)
  {
    hide GenesisId, TransitionId, CanonicalTransition, Sources, SingleUse, Bundled, Traced, SoundLog;
    forall op, p | op in l.graph && p in l.graph[op].parents ensures p in l.graph {
      assert op != GenesisId(g);
      var i :| 0 <= i < |l.log| && l.log[i].op == op;
      assert HasNode(l.graph, l.log[i]);
      ParentsComeFirst(g, l, i, p);
      if p != GenesisId(g) {
        var j :| 0 <= j < i && l.log[j].op == p;
        assert HasNode(l.graph, l.log[j]);
      }
    }
  }

  /** An operation's place in the history; genesis stands before all others. */
  ghost predicate StandsAt(g: Genesis, l: Ledger, i: int, op: Digest) {
    -1 <= i < |l.log| && op == if i < 0 then GenesisId(g) else l.log[i].op
  }

  /** An operation that is not a tip has a child that was added later. */
  lemma {:induction false} LaterChild(g: Genesis, l: Ledger, i: int, op: Digest) returns (j: nat)
    requires Safe(g, l) && StandsAt(g, l, i, op) && !IsTip(l.graph, op) && op in l.graph
    ensures i < j < |l.log| && op in Parents(l.graph, l.log[j].op) && l.log[j].op in l.graph
  {
    hide GenesisId, TransitionId, CanonicalTransition, Sources, SingleUse, Bundled, Traced, SoundLog;
    var k :| k in l.graph && op in l.graph[k].parents;
    assert k != GenesisId(g);
    j :| 0 <= j < |l.log| && l.log[j].op == k;
    assert HasNode(l.graph, l.log[j]);
    ParentsComeFirst(g, l, j, op);
    assert i >= 0 ==> l.log[i].op != GenesisId(g);
    if op != GenesisId(g) {
      var a :| 0 <= a < j && l.log[a].op == op;
      assert a == i;
    }
  }

  /** From the only tip every other operation is reached. */
  lemma {:induction false} TipReaches(g: Genesis, l: Ledger, tip: Digest, i: int, op: Digest)
    requires Safe(g, l) && OnlyTip(l.graph, tip) && StandsAt(g, l, i, op) && op in l.graph && op != tip
    ensures Ancestor(l.graph, {tip}, op)
    decreases |l.log| - i
  {
    hide GenesisId, Safe, Ancestor, StandsAt;
    assert !IsTip(l.graph, op);
    var j := LaterChild(g, l, i, op);
    var child := l.log[j].op;
    if child != tip {
      assert StandsAt(g, l, j, child) by { StandsInLog(g, l, j); }
      TipReaches(g, l, tip, j, child);
    }
    ParentIsAncestor(l.graph, {tip}, child, op);
  }

  lemma {:induction false} StandsInLog(g: Genesis, l: Ledger, j: nat)
    requires j < |l.log|
    ensures StandsAt(g, l, j, l.log[j].op)
  {
  }

  lemma {:induction false} Placement(g: Genesis, l: Ledger, op: Digest) returns (i: int)
    requires Safe(g, l) && op in l.graph
    ensures StandsAt(g, l, i, op)
  {
    hide GenesisId, SingleUse, Bundled, Traced, SoundLog, HasNode;
    if op == GenesisId(g) {
      i := -1;
    } else {
      var j :| 0 <= j < |l.log| && l.log[j].op == op;
      i := j;
    }
  }

  lemma {:induction false} MoreStartsMoreAncestors(graph: Graph, a: set<Digest>, b: set<Digest>, op: Digest)
    requires a <= b && Ancestor(graph, a, op)
    ensures Ancestor(graph, b, op)
  {
    var path :| Lineage(graph, a, op, path);
    assert Lineage(graph, b, op, path);
  }

  /** A tip whose bundle has operations is one of them. */
  lemma {:induction false} TipInBundle(g: Genesis, l: Ledger, tip: Digest)
    requires Safe(g, l) && OnlyTip(l.graph, tip) && OpsOf(l.bundleOps, l.graph[tip].bundle) != []
    ensures tip in OpsOf(l.bundleOps, l.graph[tip].bundle)
  {
    hide GenesisId, TransitionId, CanonicalTransition, Sources, SingleUse, Traced, SoundLog;
    var b := l.graph[tip].bundle;
    var some := OpsOf(l.bundleOps, b)[0];
    assert some in OpsOf(l.bundleOps, b);
    var n :| 0 <= n < |l.log| && InBundle(l.log[n], b, some);
    var last := |l.log| - 1;
    var op := l.log[last].op;
    assert HasNode(l.graph, l.log[last]);
    assert StandsAt(g, l, last, op);
    if !IsTip(l.graph, op) {
      var j := LaterChild(g, l, last, op);
    }
    assert op == tip;
    assert InBundle(l.log[last], b, tip);
  }

  /** Completeness: a transfer without terminals whose graph is complete and has one
      tip delivers everything, and whatever lies outside the tip's bundle is history. */
  lemma {:induction false} EverythingBehindTheTip(g: Genesis, l: Ledger, tip: Digest, historical: set<Digest>, selected: set<Digest>)
    requires Safe(g, l) && OnlyTip(l.graph, tip) && OpsOf(l.bundleOps, l.graph[tip].bundle) != []
    requires Searched(true, [], l.graph, l.bundleOps, true, historical, selected)
    ensures forall op :: op in historical <==> op in l.graph && l.graph[op].bundle != l.graph[tip].bundle
    ensures selected == l.graph.Keys
  {
    hide GenesisId, Safe, Ancestor;
    var protected, starts :| SearchedFrom([], l.graph, l.bundleOps, true, protected, starts)
      && Finds(l.graph, protected, starts, historical, selected);
    assert protected == {l.graph[tip].bundle};
    TipInBundle(g, l, tip);
    GraphIsClosed(g, l);
    forall op | op in l.graph && op != tip ensures Ancestor(l.graph, starts, op) {
      var i := Placement(g, l, op);
      TipReaches(g, l, tip, i, op);
      MoreStartsMoreAncestors(l.graph, {tip}, starts, op);
    }
    forall op | op in selected ensures op in l.graph {
      if op in starts {
        StartsKnown(g, l, protected, starts, op);
      } else {
        AncestorsKnown(l.graph, starts, op);
      }
    }
    forall op | op in historical ensures op in l.graph && l.graph[op].bundle != l.graph[tip].bundle {
      AncestorsKnown(l.graph, starts, op);
    }
  }

  lemma {:induction false} StartsKnown(g: Genesis, l: Ledger, protected: set<Digest>, starts: set<Digest>, op: Digest)
    requires Safe(g, l) && StartsAre(l.bundleOps, protected, starts) && op in starts
    ensures op in l.graph
  {
    hide GenesisId, SingleUse, Traced, SoundLog;
    var b :| b in protected && op in OpsOf(l.bundleOps, b);
    var i :| 0 <= i < |l.log| && InBundle(l.log[i], b, op);
    assert HasNode(l.graph, l.log[i]);
  }

  /** The delivered history is closed: with an operation it has everything that
      operation builds on. */
  lemma {:induction false} SelectionIsClosed(transfer: bool, terminals: seq<Digest>, graph: Graph, bundleOps: map<Digest, seq<Digest>>, complete: bool,
                          historical: set<Digest>, selected: set<Digest>, op: Digest, p: Digest)
    requires Closed(graph) && Searched(transfer, terminals, graph, bundleOps, complete, historical, selected)
    requires op in selected && p in Parents(graph, op)
    ensures p in selected
  {
    if transfer {
      var protected, starts :| SearchedFrom(terminals, graph, bundleOps, complete, protected, starts)
        && Finds(graph, protected, starts, historical, selected);
      ParentIsAncestor(graph, starts, op, p);
    }
  }
}
