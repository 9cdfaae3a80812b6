/** The advisory reject-list policy: which output is reachable from a checked
    output without passing an explicitly allowed one. */
module RejectList {
  import opened Collections
  import opened Wrappers
  import opened Symbols

  /** One output of one operation: which assignment type, and which in the list. */
  datatype Opout = Opout(operation: Digest, ty: nat, number: nat)

  /** One line of the service's answer after text parsing: blank, comment and
      malformed lines are `Ignored`. */
  datatype Line = Ignored | Decision(opout: Opout, allowed: bool)

  datatype List = List(reject: set<Opout>, allow: set<Opout>)

  /** The decision that stands for `o`: the one on the last line naming it. */
  function LastDecision(lines: seq<Line>, o: Opout): Option<bool> {
    if lines == [] then None
    else
      var last := lines[|lines| - 1];
      if last.Decision? && last.opout == o then Some(last.allowed)
      else LastDecision(lines[..|lines| - 1], o)
  }

  method Parse(lines: seq<Line>) returns (list: List)
    ensures forall o :: o in list.allow <==> LastDecision(lines, o) == Some(true)
    ensures forall o :: o in list.reject <==> LastDecision(lines, o) == Some(false)
  {
    var decisions: map<Opout, bool> := map[];
    for i := 0 to |lines|
      invariant forall o :: LastDecision(lines[..i], o) == if o in decisions then Some(decisions[o]) else None
    {
      assert lines[..i + 1][..i] == lines[..i];
      if lines[i].Decision? {
        decisions := decisions[lines[i].opout := lines[i].allowed];
      }
    }
    assert lines[..|lines|] == lines;
    list := List(set o | o in decisions && !decisions[o], set o | o in decisions && decisions[o]);
  }

  /** The declared ancestors of `o`; an output absent from the graph has none. */
  function Parents(dag: map<Opout, seq<Opout>>, o: Opout): seq<Opout> {
    if o in dag then dag[o] else []
  }

  /** `path` leads from `from` to `to` along ancestry edges. */
  ghost predicate IsPath(dag: map<Opout, seq<Opout>>, from: Opout, to: Opout, path: seq<Opout>) {
    && path != []
    && path[0] == from
    && path[|path| - 1] == to
    && forall i :: 0 <= i < |path| - 1 ==> IsEdge(dag, path[i], path[i + 1])
  }

  /** The second output is declared as an ancestor of the first. */
  ghost predicate IsEdge(dag: map<Opout, seq<Opout>>, o: Opout, ancestor: Opout) {
    o in dag && ancestor in dag[o]
  }

  /** No output on the path is explicitly allowed, the last one included. */
  ghost predicate Unshielded(list: List, path: seq<Opout>) {
    forall i :: 0 <= i < |path| ==> path[i] !in list.allow
  }

  /** `path` shows that `checked` descends from the rejected output `to`. */
  ghost predicate Witness(list: List, dag: map<Opout, seq<Opout>>,
                          checked: Opout, to: Opout, path: seq<Opout>) {
    IsPath(dag, checked, to, path) && Unshielded(list, path) && to in list.reject
  }

  /** `path` leads to `to`, and everything strictly before `to` is unshielded. */
  ghost predicate Open(list: List, dag: map<Opout, seq<Opout>>,
                       checked: Opout, to: Opout, path: seq<Opout>) {
    IsPath(dag, checked, to, path) && Unshielded(list, path[..|path| - 1])
  }

  /** Every output the search can ever push. */
  ghost function Universe(dag: map<Opout, seq<Opout>>, checked: Opout): set<Opout> {
    {checked} + set k, x | k in dag && x in dag[k] :: x
  }

  /** What a fully expanded `current` owes the search: its parents are known. */
  ghost predicate Expanded(list: List, dag: map<Opout, seq<Opout>>,
                           current: Opout, known: set<Opout>) {
    current in list.allow || (current !in list.reject && forall p :: p in Parents(dag, current) ==> p in known)
  }

  /** Some open path leads to `o`. */
  ghost predicate Reached(list: List, dag: map<Opout, seq<Opout>>, checked: Opout, o: Opout) {
    exists path :: Open(list, dag, checked, o, path)
  }

  /** The search invariant: what is on the stack is reached, and everything
      settled is expanded into what is settled or still on the stack. */
  ghost predicate Searching(list: List, dag: map<Opout, seq<Opout>>, checked: Opout, seen: set<Opout>, stack: set<Opout>) {
    && seen + stack <= Universe(dag, checked)
    && checked in seen + stack
    && (forall o :: o in stack ==> Reached(list, dag, checked, o))
    && (forall o :: o in seen ==> Expanded(list, dag, o, seen + stack))
  }

  lemma {:induction false} SearchStarts(list: List, dag: map<Opout, seq<Opout>>, checked: Opout)
    ensures Searching(list, dag, checked, {}, Elements([checked]))
  {
    assert Open(list, dag, checked, checked, [checked]);
  }

  lemma {:induction false} OpenIsUnshielded(list: List, dag: map<Opout, seq<Opout>>, checked: Opout, current: Opout)
    requires Reached(list, dag, checked, current) && current !in list.allow
    ensures exists path :: IsPath(dag, checked, current, path) && Unshielded(list, path)
  {
    var path :| Open(list, dag, checked, current, path);
    assert path == path[..|path| - 1] + [current];
    assert Unshielded(list, path);
  }

  lemma {:induction false} ParentReached(list: List, dag: map<Opout, seq<Opout>>, checked: Opout, current: Opout, o: Opout)
    requires Reached(list, dag, checked, current) && current !in list.allow && o in Parents(dag, current)
    ensures Reached(list, dag, checked, o)
  {
    OpenIsUnshielded(list, dag, checked, current);
    var path :| IsPath(dag, checked, current, path) && Unshielded(list, path);
    assert (path + [o])[..|path|] == path;
    assert Open(list, dag, checked, o, path + [o]);
  }

  /** Settling `current` and pushing `pushed` keeps the invariant. */
  lemma {:induction false} SearchContinues(list: List, dag: map<Opout, seq<Opout>>, checked: Opout,
                        seen: set<Opout>, stack: set<Opout>, current: Opout, rest: set<Opout>, pushed: set<Opout>)
    requires Searching(list, dag, checked, seen, stack)
    requires current in stack && stack == rest + {current}
    requires pushed == if current in seen || current in list.allow then {} else Elements(Parents(dag, current))
    requires current in list.allow || current !in list.reject || current in seen
    ensures Searching(list, dag, checked, seen + {current}, rest + pushed)
  {
    assert seen + stack <= seen + {current} + (rest + pushed);
    forall o | o in pushed ensures Reached(list, dag, checked, o) {
      ParentReached(list, dag, checked, current, o);
    }
  }

  method RejectedAncestor(list: List, checked: Opout, dag: map<Opout, seq<Opout>>) returns (found: Option<Opout>)
    ensures found.Some? ==> exists path :: Witness(list, dag, checked, found.value, path)
    ensures found.None? ==> !exists to, path :: Witness(list, dag, checked, to, path)
  {
    var stack := [checked];
    var seen: set<Opout> := {};
    SearchStarts(list, dag, checked);
    while stack != []
      invariant Searching(list, dag, checked, seen, Elements(stack))
      decreases |Universe(dag, checked) - seen|, |stack|
    {
      var current := stack[|stack| - 1];
      ghost var held := Elements(stack);
      LastElement(stack);
      stack := stack[..|stack| - 1];
      ghost var settled := seen;
      if current in seen {
        assert seen + {current} == seen && Elements(stack) + {} == Elements(stack);
        SearchContinues(list, dag, checked, seen, held, current, Elements(stack), {});
        continue;
      }
      FewerLeft(Universe(dag, checked), seen, current);
      seen := seen + {current};
      if current in list.allow {
        assert Elements(stack) + {} == Elements(stack);
        SearchContinues(list, dag, checked, settled, held, current, Elements(stack), {});
        continue;
      }
      if current in list.reject {
        OpenIsUnshielded(list, dag, checked, current);
        ghost var path :| IsPath(dag, checked, current, path) && Unshielded(list, path);
        assert Witness(list, dag, checked, current, path);
        return Some(current);
      }
      SearchContinues(list, dag, checked, settled, held, current, Elements(stack), Elements(Parents(dag, current)));
      ElementsConcat(stack, Parents(dag, current));
      stack := stack + Parents(dag, current);
    }
    NothingLeft(list, dag, checked, seen);
    return None;
  }

  lemma {:induction false} NothingLeft(list: List, dag: map<Opout, seq<Opout>>, checked: Opout, seen: set<Opout>)
    requires Searching(list, dag, checked, seen, Elements([]))
    ensures !exists to, path :: Witness(list, dag, checked, to, path)
  {
    assert seen + Elements([]) == seen;
    forall to, path | IsPath(dag, checked, to, path) && Unshielded(list, path) ensures to !in list.reject {
      ClosedUnderPaths(list, dag, checked, to, path, seen);
    }
  }

  /** A set closed under expansion holds every output an unshielded path reaches. */
  lemma {:induction false} ClosedUnderPaths(list: List, dag: map<Opout, seq<Opout>>,
                             checked: Opout, to: Opout, path: seq<Opout>, seen: set<Opout>)
    requires checked in seen && forall o :: o in seen ==> Expanded(list, dag, o, seen)
    requires IsPath(dag, checked, to, path) && Unshielded(list, path)
    ensures to in seen && to !in list.reject
    decreases |path|
  {
    if |path| > 1 {
      var shorter := path[..|path| - 1];
      ClosedUnderPaths(list, dag, checked, shorter[|shorter| - 1], shorter, seen);
      assert path[|path| - 2 + 1] in Parents(dag, path[|path| - 2]);
    } else {
      assert path[0] == to;
    }
    assert path[|path| - 1] == to && to !in list.allow;
  }
}
