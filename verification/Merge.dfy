/** Merging client-side histories: shared bundles once, disclosures united. */
module Merge {
  import opened Agreement
  import opened Anchor
  import opened Bytes
  import opened Commitments
  import opened Operations
  import opened Outputs
  import Safety
  import opened SchemaTotals
  import opened Symbols
  import opened Validator
  import opened Wrappers

  // ----- assignments

  /** A disclosed assignment replaces a concealed one; two alike are kept. */
  function MergeItem(d: Assignment, s: Assignment): Option<Assignment> {
    if d.Confidential? && s.Revealed? then Some(s)
    else if d.Revealed? && s.Confidential? then Some(d)
    else if d == s then Some(d)
    else None
  }

  function MergeItems(ds: seq<Assignment>, ss: seq<Assignment>): Option<seq<Assignment>> {
    if |ds| != |ss| then None
    else if ds == [] then Some([])
    else
      match (MergeItem(ds[0], ss[0]), MergeItems(ds[1..], ss[1..]))
      case (Some(x), Some(xs)) => Some([x] + xs)
      case _ => None
  }

  function MergeEntries(ds: seq<Entry>, ss: seq<Entry>): Option<seq<Entry>> {
    if |ds| != |ss| then None
    else if ds == [] then Some([])
    else if ds[0].ty != ss[0].ty || ds[0].kind != ss[0].kind then None
    else
      match (MergeItems(ds[0].assigns, ss[0].assigns), MergeEntries(ds[1..], ss[1..]))
      case (Some(xs), Some(es)) => Some([Entry(ds[0].ty, ds[0].kind, xs)] + es)
      case _ => None
  }

  /** The loop over one list: assignments are overwritten where they stand. */
  method MergeItemsInPlace(dst: array<Assignment>, src: seq<Assignment>) returns (ok: bool)
    modifies dst
    ensures ok <==> MergeItems(old(dst[..]), src).Some?
    ensures ok ==> Some(dst[..]) == MergeItems(old(dst[..]), src)
  {
    ghost var was := dst[..];
    if dst.Length != |src| {
      return false;
    }
    assert was[0..] == was && src[0..] == src;
    PrefixedNone(MergeItems(was, src));
    for i := 0 to dst.Length
      invariant dst[i..] == was[i..]
      invariant MergeItems(was, src) == Prefixed(dst[..i], MergeItems(was[i..], src[i..]))
    {
      assert was[i..][0] == dst[i..][0] == dst[i] && src[i..][0] == src[i];
      assert was[i..][1..] == was[i + 1..] && src[i..][1..] == src[i + 1..];
      var before := dst[..i];
      if dst[i].Confidential? && src[i].Revealed? {
        PrefixedMore(before, src[i], MergeItems(was[i + 1..], src[i + 1..]));
        dst[i] := src[i];
      } else if dst[i].Revealed? && src[i].Confidential? {
        PrefixedMore(before, dst[i], MergeItems(was[i + 1..], src[i + 1..]));
      } else if dst[i] != src[i] {
        return false;
      } else {
        PrefixedMore(before, dst[i], MergeItems(was[i + 1..], src[i + 1..]));
      }
      assert dst[..i + 1] == before + [dst[i]];
    }
    assert was[dst.Length..] == [] && src[dst.Length..] == [];
    assert dst[..dst.Length] == dst[..] && dst[..] + [] == dst[..];
    return true;
  }

  function Prefixed<T>(a: seq<T>, b: Option<seq<T>>): Option<seq<T>> {
    if b.None? then None else Some(a + b.value)
  }

  lemma {:induction false} PrefixedNone<T>(b: Option<seq<T>>)
    ensures Prefixed([], b) == b
  {
    if b.Some? {
      assert [] + b.value == b.value;
    }
  }

  lemma {:induction false} PrefixedMore<T>(a: seq<T>, x: T, b: Option<seq<T>>)
    ensures Prefixed(a + [x], b) == Prefixed(a, if b.None? then None else Some([x] + b.value))
  {
    if b.Some? {
      assert a + [x] + b.value == a + ([x] + b.value);
    }
  }

  // ----- merging keeps what is committed

  /** Two disclosures of one assignment: same state, same secret. */
  lemma {:induction false} ItemsMerge(d: Assignment, s: Assignment)
    requires Concealed(d) == Concealed(s)
    requires (d.Revealed? ==> CanonicalSeal(d.seal)) && (s.Revealed? ==> CanonicalSeal(s.seal))
    ensures MergeItem(d, s).Some? && MergeItem(d, s) == MergeItem(s, d)
    ensures var m := MergeItem(d, s).value;
            && Concealed(m) == Concealed(d)
            && (m == d || m == s)
            && (m.Revealed? <==> d.Revealed? || s.Revealed?)
            && (d.Revealed? ==> m == d) && (s.Revealed? ==> m == s)
  {
    hide Conceal;
    if d.Revealed? && s.Revealed? {
      ConcealInjective(d.seal, s.seal);
    }
  }

  ghost predicate CanonicalSeals(assigns: seq<Assignment>) {
    forall i :: 0 <= i < |assigns| ==> assigns[i].Revealed? ==> CanonicalSeal(assigns[i].seal)
  }

  lemma {:induction false} ListsMerge(ds: seq<Assignment>, ss: seq<Assignment>)
    requires ConcealedAll(ds) == ConcealedAll(ss) && CanonicalSeals(ds) && CanonicalSeals(ss)
    ensures |ds| == |ss| && MergeItems(ds, ss).Some? && MergeItems(ds, ss) == MergeItems(ss, ds)
    ensures var m := MergeItems(ds, ss).value;
            |m| == |ds| && forall i :: 0 <= i < |ds| ==> Some(m[i]) == MergeItem(ds[i], ss[i])
  {
    assert |ConcealedAll(ds)| == |ConcealedAll(ss)|;
    if ds != [] {
      assert ConcealedAll(ds)[0] == Concealed(ds[0]) && ConcealedAll(ss)[0] == Concealed(ss[0]);
      ItemsMerge(ds[0], ss[0]);
      assert ConcealedAll(ds[1..]) == ConcealedAll(ds)[1..] && ConcealedAll(ss[1..]) == ConcealedAll(ss)[1..];
      assert CanonicalSeals(ds[1..]) by { assert forall i :: 0 <= i < |ds[1..]| ==> ds[1..][i] == ds[i + 1]; }
      assert CanonicalSeals(ss[1..]) by { assert forall i :: 0 <= i < |ss[1..]| ==> ss[1..][i] == ss[i + 1]; }
      ListsMerge(ds[1..], ss[1..]);
    }
  }

  /** Each merged assignment, against the two it was merged from. */
  lemma {:induction false} ListsMergeAt(ds: seq<Assignment>, ss: seq<Assignment>, i: nat)
    requires ConcealedAll(ds) == ConcealedAll(ss) && CanonicalSeals(ds) && CanonicalSeals(ss) && i < |ds|
    ensures |ds| == |ss| && MergeItems(ds, ss).Some? && |MergeItems(ds, ss).value| == |ds|
    ensures var m := MergeItems(ds, ss).value[i];
            && Concealed(m) == Concealed(ds[i]) && (m == ds[i] || m == ss[i])
            && (m.Revealed? <==> ds[i].Revealed? || ss[i].Revealed?)
  {
    hide MergeItem, Concealed;
    ListsMerge(ds, ss);
    assert ConcealedAll(ds)[i] == Concealed(ds[i]) && ConcealedAll(ss)[i] == Concealed(ss[i]);
    ItemsMerge(ds[i], ss[i]);
  }

  lemma {:induction false} EntrySeals(e: Entry)
    requires CanonicalEntry(e)
    ensures CanonicalSeals(e.assigns)
  {
    forall i | 0 <= i < |e.assigns| ensures e.assigns[i].Revealed? ==> CanonicalSeal(e.assigns[i].seal) {
      assert CanonicalAssignment(e.kind, e.assigns[i]);
    }
  }

  lemma {:induction false} MergedList(d: Entry, s: Entry)
    requires CanonicalEntry(d) && CanonicalEntry(s) && ConcealedAll(d.assigns) == ConcealedAll(s.assigns) && d.kind == s.kind
    ensures MergeItems(d.assigns, s.assigns).Some? && MergeItems(d.assigns, s.assigns) == MergeItems(s.assigns, d.assigns)
    ensures var m := MergeItems(d.assigns, s.assigns).value;
            && ConcealedAll(m) == ConcealedAll(d.assigns) && CanonicalEntry(Entry(d.ty, d.kind, m))
            && (forall i :: 0 <= i < |m| ==> (m[i].Revealed? <==> d.assigns[i].Revealed? || s.assigns[i].Revealed?))
  {
    hide MergeItem, MergeItems, Concealed, CanonicalSeal, CanonicalState;
    EntrySeals(d);
    EntrySeals(s);
    ListsMerge(d.assigns, s.assigns);
    var m := MergeItems(d.assigns, s.assigns).value;
    forall i | 0 <= i < |m|
      ensures m[i].Revealed? <==> d.assigns[i].Revealed? || s.assigns[i].Revealed?
      ensures Concealed(m[i]) == Concealed(d.assigns[i]) && CanonicalAssignment(d.kind, m[i])
    {
      ListsMergeAt(d.assigns, s.assigns, i);
      assert CanonicalAssignment(d.kind, d.assigns[i]) && CanonicalAssignment(s.kind, s.assigns[i]);
    }
    assert ConcealedAll(m) == ConcealedAll(d.assigns);
  }

  lemma {:induction false} SameHeads(ds: seq<Entry>, ss: seq<Entry>)
    requires ConcealedEntries(ds) == ConcealedEntries(ss) && ds != []
    ensures ss != [] && |ds| == |ss| && ds[0].ty == ss[0].ty && ds[0].kind == ss[0].kind
    ensures ConcealedAll(ds[0].assigns) == ConcealedAll(ss[0].assigns)
    ensures ConcealedEntries(ds[1..]) == ConcealedEntries(ss[1..])
  {
    assert |ConcealedEntries(ds)| == |ConcealedEntries(ss)|;
    assert ConcealedEntries(ds)[0] == ConcealedEntries(ss)[0];
    assert ConcealedEntries(ds[1..]) == ConcealedEntries(ds)[1..] && ConcealedEntries(ss[1..]) == ConcealedEntries(ss)[1..];
  }

  /** Two disclosures of one committed list of assignments always merge, in either
      order to the same list; that list has the same commitment, and reveals exactly
      what one of the two reveals. */
  lemma {:induction false} EntriesMerge(ds: seq<Entry>, ss: seq<Entry>)
    requires CanonicalEntries(ds) && CanonicalEntries(ss) && ConcealedEntries(ds) == ConcealedEntries(ss)
    ensures MergeEntries(ds, ss).Some? && MergeEntries(ds, ss) == MergeEntries(ss, ds)
    ensures var m := MergeEntries(ds, ss).value;
            && CanonicalEntries(m) && ConcealedEntries(m) == ConcealedEntries(ds)
            && (forall ty, no :: IsRevealed(m, ty, no) <==> IsRevealed(ds, ty, no) || IsRevealed(ss, ty, no))
  {
    hide MergeItems, ConcealedAll, CanonicalEntry;
    if ds == [] {
      assert |ConcealedEntries(ds)| == |ConcealedEntries(ss)|;
    } else {
      SameHeads(ds, ss);
      MergedList(ds[0], ss[0]);
      RestCanonical(ds);
      RestCanonical(ss);
      EntriesMerge(ds[1..], ss[1..]);
      var m, rest := MergeEntries(ds, ss).value, MergeEntries(ds[1..], ss[1..]).value;
      var head := Entry(ds[0].ty, ds[0].kind, MergeItems(ds[0].assigns, ss[0].assigns).value);
      assert m == [head] + rest;
      MergedCanonical(ds, head, rest);
      assert ConcealedEntries(m) == ConcealedEntries(ds) by {
        assert m[1..] == rest;
        assert |ConcealedEntries(rest)| == |ConcealedEntries(ds[1..])|;
      }
      forall ty, no ensures IsRevealed(m, ty, no) <==> IsRevealed(ds, ty, no) || IsRevealed(ss, ty, no) {
        RevealedHead(ds, ss, head, rest, ty, no);
      }
    }
  }

  lemma {:induction false} RevealedHead(ds: seq<Entry>, ss: seq<Entry>, head: Entry, rest: seq<Entry>, ty: nat, no: nat)
    requires ds != [] && ss != [] && ds[0].ty == ss[0].ty == head.ty && |ds[0].assigns| == |ss[0].assigns| == |head.assigns|
    requires forall i :: 0 <= i < |head.assigns| ==> (head.assigns[i].Revealed? <==> ds[0].assigns[i].Revealed? || ss[0].assigns[i].Revealed?)
    requires IsRevealed(rest, ty, no) <==> IsRevealed(ds[1..], ty, no) || IsRevealed(ss[1..], ty, no)
    ensures IsRevealed([head] + rest, ty, no) <==> IsRevealed(ds, ty, no) || IsRevealed(ss, ty, no)
  {
    assert ([head] + rest)[1..] == rest;
  }

  lemma {:induction false} MergedCanonical(ds: seq<Entry>, head: Entry, rest: seq<Entry>)
    requires CanonicalEntries(ds) && ds != [] && CanonicalEntry(head) && head.ty == ds[0].ty
    requires CanonicalEntries(rest) && ConcealedEntries(rest) == ConcealedEntries(ds[1..])
    ensures CanonicalEntries([head] + rest)
  {
    hide CanonicalEntry, ConcealedAll;
    var m := [head] + rest;
    assert |ConcealedEntries(rest)| == |ConcealedEntries(ds[1..])|;
    forall i | 0 <= i < |m| ensures CanonicalEntry(m[i]) && m[i].ty == ds[i].ty {
      if i > 0 {
        assert ConcealedEntries(rest)[i - 1] == ConcealedEntries(ds[1..])[i - 1];
        assert rest[i - 1].ty == ds[1..][i - 1].ty;
      }
    }
  }

  // ----- transitions

  function MergeTransition(d: Transition, s: Transition): Option<Transition> {
    match MergeEntries(d.assignments, s.assignments)
    case None => None
    case Some(es) => Some(d.(assignments := es))
  }

  /** Two transitions that commit to the same assignments. */
  predicate Alike(d: Transition, s: Transition) {
    ConcealedEntries(d.assignments) == ConcealedEntries(s.assignments)
  }

  lemma {:induction false} SameNumber(ds: seq<Entry>, ss: seq<Entry>)
    requires MergeEntries(ds, ss).Some?
    ensures |Records(ds)| == |Records(ss)|
  {
    hide AssignmentRecord;
    if ds != [] {
      SameLength(ds[0].assigns, ss[0].assigns);
      SameNumber(ds[1..], ss[1..]);
    }
  }

  lemma {:induction false} SameLength(ds: seq<Assignment>, ss: seq<Assignment>)
    requires MergeItems(ds, ss).Some?
    ensures |ds| == |ss|
  {
  }

  /** Transitions of one id merge exactly when they commit to the same assignments; the
      id stays, and what is revealed is the union. */
  lemma {:induction false} TransitionsMerge(d: Transition, s: Transition)
    requires CanonicalTransition(d) && CanonicalTransition(s) && TransitionId(d) == TransitionId(s)
    ensures MergeTransition(d, s).Some? <==> Alike(d, s)
    ensures MergeTransition(d, s).Some? ==>
              var m := MergeTransition(d, s).value;
              && CanonicalTransition(m) && TransitionId(m) == TransitionId(d) && m.inputs == d.inputs && Alike(m, d)
              && (forall ty, no :: IsRevealed(m.assignments, ty, no) <==> IsRevealed(d.assignments, ty, no) || IsRevealed(s.assignments, ty, no))
  {
    hide TransitionId, MergeTransition, IsRevealed, CanonicalTransition, Alike;
    if Alike(d, s) {
      AlikeMerge(d, s);
    } else {
      OthersDoNotMerge(d, s);
    }
  }

  lemma {:induction false} AlikeMerge(d: Transition, s: Transition)
    requires CanonicalTransition(d) && CanonicalTransition(s) && Alike(d, s)
    ensures MergeTransition(d, s).Some?
    ensures var m := MergeTransition(d, s).value;
            && CanonicalTransition(m) && TransitionId(m) == TransitionId(d) && m.inputs == d.inputs && Alike(m, d)
            && (forall ty, no :: IsRevealed(m.assignments, ty, no) <==> IsRevealed(d.assignments, ty, no) || IsRevealed(s.assignments, ty, no))
  {
    hide TransitionId, MergeEntries, IsRevealed, CanonicalEntries, ConcealedEntries, CanonicalMetadata, CanonicalGlobals;
    EntriesMerge(d.assignments, s.assignments);
    PublicIsSame(MergeTransition(d, s).value, d);
  }

  lemma {:induction false} OthersDoNotMerge(d: Transition, s: Transition)
    requires CanonicalTransition(d) && CanonicalTransition(s) && TransitionId(d) == TransitionId(s) && !Alike(d, s)
    ensures MergeTransition(d, s).None?
  {
    hide TransitionId, MergeEntries, CanonicalTransition, EntriesMask, SameGlobals, SameFrame, ConcealedEntries;
    TransitionIdExact(d, s);
    if EntriesMask(d.assignments, s.assignments) {
      MaskDoesNotMerge(d.assignments, s.assignments);
    } else {
      MaskDoesNotMerge(s.assignments, d.assignments);
    }
  }

  /** The one assignment that masks others cannot be merged with them, nor they with it. */
  lemma {:induction false} MaskDoesNotMerge(ds: seq<Entry>, ss: seq<Entry>)
    requires EntriesMask(ds, ss)
    ensures MergeEntries(ds, ss).None? && MergeEntries(ss, ds).None?
  {
    hide MergeEntries, Records, EntriesMask;
    MaskIsOne(ds, ss);
    assert |Records(ss)| != 1 by { ManyRecords(ds, ss); }
    if MergeEntries(ds, ss).Some? { SameNumber(ds, ss); }
    if MergeEntries(ss, ds).Some? { SameNumber(ss, ds); }
  }

  lemma {:induction false} ManyRecords(es: seq<Entry>, others: seq<Entry>)
    requires EntriesMask(es, others)
    ensures |Records(others)| != 1
  {
    hide Records, MaskAssignment;
  }

  /** Without types 2, disclosures of one operation always merge. */
  lemma {:induction false} DisclosuresMerge(d: Transition, s: Transition)
    requires CanonicalTransition(d) && CanonicalTransition(s) && TransitionId(d) == TransitionId(s)
    requires NoTypeTwo(d.globals, d.assignments) && NoTypeTwo(s.globals, s.assignments)
    ensures Alike(d, s)
  {
    hide TransitionId, CanonicalTransition;
    TransitionIdBinds(d, s);
    assert Public(d).assignments == ConcealedEntries(d.assignments);
    assert Public(s).assignments == ConcealedEntries(s.assignments);
  }

  // ----- known transitions of one bundle

  function IdOf(k: Known): Digest {
    TransitionId(k.transition)
  }

  /** Positions by operation id; a later duplicate takes the place of an earlier one. */
  function PositionsById(known: seq<Known>): map<Digest, nat> {
    if known == [] then map[] else PositionsById(known[..|known| - 1])[IdOf(known[|known| - 1]) := |known| - 1]
  }

  lemma {:induction false} PositionsByIdMean(known: seq<Known>, id: Digest)
    ensures id in PositionsById(known) ==> PositionsById(known)[id] < |known| && IdOf(known[PositionsById(known)[id]]) == id
    ensures id !in PositionsById(known) ==> forall k :: 0 <= k < |known| ==> IdOf(known[k]) != id
  {
    hide IdOf;
    if known != [] {
      PositionsByIdMean(known[..|known| - 1], id);
    }
  }

  /** Each source transition is merged into the destination transition of its id. */
  function MergeKnown(dst: seq<Known>, byId: map<Digest, nat>, src: seq<Known>): Option<seq<Known>>
    decreases src
  {
    if src == [] then Some(dst)
    else if src[0].transition.inputs == [] || IdOf(src[0]) !in byId || byId[IdOf(src[0])] >= |dst| then None
    else
      var k := byId[IdOf(src[0])];
      match MergeTransition(dst[k].transition, src[0].transition)
      case None => None
      case Some(t) => MergeKnown(dst[k := dst[k].(transition := t)], byId, src[1..])
  }

  ghost predicate CanonicalKnown(known: seq<Known>) {
    forall k :: 0 <= k < |known| ==> CanonicalTransition(known[k].transition) && known[k].transition.inputs != []
  }

  /** The same operations in the same places, disclosed more or less. */
  ghost predicate SameIds(a: seq<Known>, b: seq<Known>) {
    |a| == |b| && forall k :: 0 <= k < |a| ==> Redisclosed(a[k], b[k])
  }

  predicate Redisclosed(a: Known, b: Known) {
    IdOf(a) == IdOf(b) && a.declared == b.declared && a.transition.inputs == b.transition.inputs && Alike(a.transition, b.transition)
  }

  /** Some known transition of the id reveals the output. */
  ghost predicate Discloses(known: seq<Known>, op: Digest, ty: nat, no: nat) {
    exists k :: 0 <= k < |known| && DisclosesAt(known[k], op, ty, no)
  }

  ghost predicate DisclosesAt(k: Known, op: Digest, ty: nat, no: nat) {
    IdOf(k) == op && IsRevealed(k.transition.assignments, ty, no)
  }

  ghost predicate Has(known: seq<Known>, op: Digest) {
    exists k :: 0 <= k < |known| && IdOf(known[k]) == op
  }

  lemma {:induction false} OneMerged(dst: seq<Known>, k: nat, s: Known)
    requires CanonicalKnown(dst) && k < |dst| && CanonicalTransition(s.transition) && IdOf(s) == IdOf(dst[k])
    requires Alike(dst[k].transition, s.transition)
    ensures MergeTransition(dst[k].transition, s.transition).Some?
    ensures var next := dst[k := dst[k].(transition := MergeTransition(dst[k].transition, s.transition).value)];
            && CanonicalKnown(next) && SameIds(next, dst)
            && forall op, ty, no :: Discloses(next, op, ty, no) <==> Discloses(dst, op, ty, no) || DisclosesAt(s, op, ty, no)
  {
    hide TransitionId, MergeTransition, IsRevealed, CanonicalTransition, ConcealedEntries;
    TransitionsMerge(dst[k].transition, s.transition);
    var m := dst[k].(transition := MergeTransition(dst[k].transition, s.transition).value);
    var next := dst[k := m];
    forall op, ty, no ensures Discloses(next, op, ty, no) <==> Discloses(dst, op, ty, no) || DisclosesAt(s, op, ty, no) {
      if Discloses(dst, op, ty, no) {
        var j :| 0 <= j < |dst| && DisclosesAt(dst[j], op, ty, no);
        assert DisclosesAt(next[j], op, ty, no);
      }
      if DisclosesAt(s, op, ty, no) {
        assert DisclosesAt(next[k], op, ty, no);
      }
      if Discloses(next, op, ty, no) {
        var j :| 0 <= j < |next| && DisclosesAt(next[j], op, ty, no);
        assert j != k ==> DisclosesAt(dst[j], op, ty, no);
        assert j == k ==> DisclosesAt(dst[k], op, ty, no) || DisclosesAt(s, op, ty, no);
      }
    }
  }

  lemma {:induction false} DisclosesCons(src: seq<Known>, op: Digest, ty: nat, no: nat)
    requires src != []
    ensures Discloses(src, op, ty, no) <==> DisclosesAt(src[0], op, ty, no) || Discloses(src[1..], op, ty, no)
  {
    hide DisclosesAt;
    if Discloses(src, op, ty, no) {
      var k :| 0 <= k < |src| && DisclosesAt(src[k], op, ty, no);
      assert k > 0 ==> DisclosesAt(src[1..][k - 1], op, ty, no);
    }
    if Discloses(src[1..], op, ty, no) {
      var k :| 0 <= k < |src[1..]| && DisclosesAt(src[1..][k], op, ty, no);
      assert DisclosesAt(src[k + 1], op, ty, no);
    }
  }

  /** The positions lead to transitions of the ids they are filed under. */
  ghost predicate Filed(dst: seq<Known>, byId: map<Digest, nat>) {
    forall id :: id in byId ==> byId[id] < |dst| && IdOf(dst[byId[id]]) == id
  }

  /** The source transition has the id of a filed one that commits to the same assignments. */
  predicate Matched(dst: seq<Known>, byId: map<Digest, nat>, s: Known) {
    && IdOf(s) in byId && byId[IdOf(s)] < |dst|
    && Alike(dst[byId[IdOf(s)]].transition, s.transition)
  }

  /** What was merged in changes no match. */
  lemma {:induction false} StillMatched(a: seq<Known>, b: seq<Known>, byId: map<Digest, nat>, s: Known)
    requires SameIds(a, b)
    ensures Matched(a, byId, s) <==> Matched(b, byId, s)
  {
    hide IdOf, ConcealedEntries;
    if IdOf(s) in byId && byId[IdOf(s)] < |a| {
      assert Redisclosed(a[byId[IdOf(s)]], b[byId[IdOf(s)]]);
    }
  }

  lemma {:induction false} SameIdsTrans(a: seq<Known>, b: seq<Known>, c: seq<Known>)
    requires SameIds(a, b) && SameIds(b, c)
    ensures SameIds(a, c)
  {
    hide IdOf, ConcealedEntries;
    forall k | 0 <= k < |a| ensures Redisclosed(a[k], c[k]) {
      assert Redisclosed(a[k], b[k]) && Redisclosed(b[k], c[k]);
    }
  }

  /** Merging known transitions: it succeeds exactly when every source transition is matched;
      ids stay in place; and an output is shown afterwards exactly when either list showed it. */
  lemma {:induction false} KnownMerge(dst: seq<Known>, byId: map<Digest, nat>, src: seq<Known>)
    requires CanonicalKnown(dst) && CanonicalKnown(src) && Filed(dst, byId)
    ensures MergeKnown(dst, byId, src).Some? <==> forall k :: 0 <= k < |src| ==> Matched(dst, byId, src[k])
    ensures MergeKnown(dst, byId, src).Some? ==>
              var m := MergeKnown(dst, byId, src).value;
              && CanonicalKnown(m) && SameIds(m, dst)
              && forall op, ty, no :: Discloses(m, op, ty, no) <==> Discloses(dst, op, ty, no) || Discloses(src, op, ty, no)
    decreases src, 1
  {
    hide TransitionId, MergeTransition, CanonicalTransition, DisclosesAt, IdOf, Alike, SameIds;
    if src == [] {
      SameIdsRefl(dst);
    } else {
      assert CanonicalTransition(src[0].transition) && src[0].transition.inputs != [];
      assert CanonicalKnown(src[1..]) by { assert forall k :: 0 <= k < |src[1..]| ==> src[1..][k] == src[k + 1]; }
      if IdOf(src[0]) in byId {
        var k := byId[IdOf(src[0])];
        assert IdOf(src[0]) == IdOf(dst[k]);
        TransitionIdsMerge(dst[k], src[0]);
        if Alike(dst[k].transition, src[0].transition) {
          KnownStepMerge(dst, byId, src, k);
        }
      }
    }
  }

  lemma {:induction false} TransitionIdsMerge(d: Known, s: Known)
    requires CanonicalTransition(d.transition) && CanonicalTransition(s.transition) && IdOf(d) == IdOf(s)
    ensures MergeTransition(d.transition, s.transition).Some? <==> Alike(d.transition, s.transition)
  {
    hide TransitionId, MergeTransition, CanonicalTransition, Alike, IsRevealed;
    TransitionsMerge(d.transition, s.transition);
  }

  lemma {:induction false} SameIdsRefl(a: seq<Known>)
    ensures SameIds(a, a)
  {
    hide IdOf, ConcealedEntries;
  }

  lemma {:induction false} KnownStepMerge(dst: seq<Known>, byId: map<Digest, nat>, src: seq<Known>, k: nat)
    requires CanonicalKnown(dst) && CanonicalKnown(src) && Filed(dst, byId) && src != []
    requires IdOf(src[0]) in byId && byId[IdOf(src[0])] == k && Alike(dst[k].transition, src[0].transition)
    ensures MergeKnown(dst, byId, src).Some? <==> forall k :: 0 <= k < |src| ==> Matched(dst, byId, src[k])
    ensures MergeKnown(dst, byId, src).Some? ==>
              var m := MergeKnown(dst, byId, src).value;
              && CanonicalKnown(m) && SameIds(m, dst)
              && forall op, ty, no :: Discloses(m, op, ty, no) <==> Discloses(dst, op, ty, no) || Discloses(src, op, ty, no)
    decreases src, 0
  {
    hide TransitionId, MergeTransition, CanonicalTransition, DisclosesAt, Discloses, IdOf, Alike, SameIds;
    var rest := src[1..];
    assert forall k :: 0 <= k < |rest| ==> rest[k] == src[k + 1];
    assert CanonicalTransition(src[0].transition) && src[0].transition.inputs != [] && CanonicalKnown(rest);
    OneMerged(dst, k, src[0]);
    var next := dst[k := dst[k].(transition := MergeTransition(dst[k].transition, src[0].transition).value)];
    FiledStill(next, dst, byId);
    KnownMerge(next, byId, rest);
    assert MergeKnown(dst, byId, src) == MergeKnown(next, byId, rest);
    forall k | 0 <= k < |rest| ensures Matched(next, byId, rest[k]) <==> Matched(dst, byId, src[k + 1]) {
      StillMatched(next, dst, byId, rest[k]);
    }
    assert Matched(dst, byId, src[0]);
    assert (forall k :: 0 <= k < |src| ==> Matched(dst, byId, src[k])) <==> (forall k :: 0 <= k < |rest| ==> Matched(next, byId, rest[k])) by {
      assert forall k :: 0 < k < |src| ==> src[k] == rest[k - 1];
    }
    if MergeKnown(dst, byId, src).Some? {
      SameIdsTrans(MergeKnown(dst, byId, src).value, next, dst);
      forall op, ty, no ensures Discloses(MergeKnown(dst, byId, src).value, op, ty, no) <==> Discloses(dst, op, ty, no) || Discloses(src, op, ty, no) {
        DisclosesCons(src, op, ty, no);
      }
    }
  }

  lemma {:induction false} FiledStill(a: seq<Known>, b: seq<Known>, byId: map<Digest, nat>)
    requires SameIds(a, b) && Filed(b, byId)
    ensures Filed(a, byId)
  {
    hide IdOf, ConcealedEntries;
    forall id | id in byId ensures byId[id] < |a| && IdOf(a[byId[id]]) == id {
      assert Redisclosed(a[byId[id]], b[byId[id]]);
    }
  }

  // ----- bundles

  ghost predicate ValidBundle(wb: WitnessBundle) {
    CanonicalWitnessBundle(wb) && BundleOf(wb.bundle).Ok?
  }

  function BundleIdOf(wb: WitnessBundle): Digest {
    BundleId(wb.bundle.inputMap)
  }

  function MergeBundle(d: WitnessBundle, s: WitnessBundle): Option<WitnessBundle> {
    if d.pub != s.pub || d.mpc != s.mpc || d.dbc != s.dbc || |d.bundle.known| != |s.bundle.known| then None
    else
      match MergeKnown(d.bundle.known, PositionsById(d.bundle.known), s.bundle.known)
      case None => None
      case Some(known) => Some(d.(bundle := d.bundle.(known := known)))
  }

  /** The two bundles can be merged: same witness and anchor, as many transitions, and
      the destination has each source transition, last disclosed with the same assignments. */
  ghost predicate Compatible(d: WitnessBundle, s: WitnessBundle) {
    && d.pub == s.pub && d.mpc == s.mpc && d.dbc == s.dbc && |d.bundle.known| == |s.bundle.known|
    && forall k :: 0 <= k < |s.bundle.known| ==> Matched(d.bundle.known, PositionsById(d.bundle.known), s.bundle.known[k])
  }

  lemma {:induction false} CompatibleKnows(d: WitnessBundle, s: WitnessBundle)
    requires Compatible(d, s)
    ensures forall op :: Has(s.bundle.known, op) ==> Has(d.bundle.known, op)
  {
    hide IdOf, PositionsById, Alike;
    var dst, src := d.bundle.known, s.bundle.known;
    forall op | Has(src, op) ensures Has(dst, op) {
      var k :| 0 <= k < |src| && IdOf(src[k]) == op;
      assert Matched(dst, PositionsById(dst), src[k]);
      PositionsByIdMean(dst, op);
    }
  }

  /** No disclosed transition uses type 2 for globals or assignments. */
  predicate PlainBundle(wb: WitnessBundle) {
    forall k :: 0 <= k < |wb.bundle.known| ==>
      NoTypeTwo(wb.bundle.known[k].transition.globals, wb.bundle.known[k].transition.assignments)
  }

  /** Without types 2, a bundle can be merged exactly when the destination knows every
      operation of the source. */
  lemma {:induction false} PlainCompatible(d: WitnessBundle, s: WitnessBundle)
    requires ValidBundle(d) && ValidBundle(s) && PlainBundle(d) && PlainBundle(s)
    ensures Compatible(d, s) <==>
            && d.pub == s.pub && d.mpc == s.mpc && d.dbc == s.dbc && |d.bundle.known| == |s.bundle.known|
            && forall op :: Has(s.bundle.known, op) ==> Has(d.bundle.known, op)
  {
    hide BundleId, TransitionId, CanonicalTransition, PositionsById, KnownError, IdOf, NoTypeTwo, ConcealedEntries;
    ValidKnown(d);
    ValidKnown(s);
    var dst, src, byId := d.bundle.known, s.bundle.known, PositionsById(d.bundle.known);
    forall id ensures id in byId <==> Has(dst, id) {
      PositionsByIdMean(dst, id);
    }
    AllFiled(dst, src, byId);
    forall k | 0 <= k < |src| ensures Matched(dst, byId, src[k]) <==> IdOf(src[k]) in byId {
      PlainMatched(dst, src[k]);
    }
  }

  lemma {:induction false} PlainMatched(dst: seq<Known>, s: Known)
    requires CanonicalKnown(dst) && CanonicalTransition(s.transition) && NoTypeTwo(s.transition.globals, s.transition.assignments)
    requires forall k :: 0 <= k < |dst| ==> NoTypeTwo(dst[k].transition.globals, dst[k].transition.assignments)
    ensures Matched(dst, PositionsById(dst), s) <==> IdOf(s) in PositionsById(dst)
  {
    hide TransitionId, CanonicalTransition, PositionsById, NoTypeTwo, Alike;
    PositionsByIdMean(dst, IdOf(s));
    if IdOf(s) in PositionsById(dst) {
      DisclosuresMerge(dst[PositionsById(dst)[IdOf(s)]].transition, s.transition);
    }
  }

  lemma {:induction false} KnownOk(known: seq<Known>, ops: set<Digest>)
    ensures KnownError(known, ops) == None <==>
            forall k :: 0 <= k < |known| ==> known[k].transition.inputs != [] && known[k].declared == IdOf(known[k]) && IdOf(known[k]) in ops
  {
    hide TransitionId;
    if known != [] {
      KnownOk(known[1..], ops);
      assert forall k :: 0 <= k < |known[1..]| ==> known[1..][k] == known[k + 1];
      assert forall k :: 0 < k < |known| ==> known[k] == known[1..][k - 1];
    }
  }

  lemma {:induction false} ValidKnown(wb: WitnessBundle)
    requires ValidBundle(wb)
    ensures CanonicalKnown(wb.bundle.known) && BundleOf(wb.bundle).value.id == BundleIdOf(wb)
    ensures KnownError(wb.bundle.known, InputOps(wb.bundle.inputMap)) == None && wb.bundle.known != []
  {
    hide BundleId, CanonicalTransition, KnownError;
    KnownOk(wb.bundle.known, InputOps(wb.bundle.inputMap));
    forall k | 0 <= k < |wb.bundle.known| ensures CanonicalTransition(wb.bundle.known[k].transition) {
    }
  }

  /** What merging two bundles yields. */
  ghost predicate Merged(m: WitnessBundle, d: WitnessBundle, s: WitnessBundle) {
    && ValidBundle(m) && BundleIdOf(m) == BundleIdOf(d) && m.pub == d.pub && m.mpc == d.mpc && m.dbc == d.dbc
    && SameIds(m.bundle.known, d.bundle.known)
    && forall op, ty, no :: Discloses(m.bundle.known, op, ty, no) <==> Discloses(d.bundle.known, op, ty, no) || Discloses(s.bundle.known, op, ty, no)
  }

  /** Merging two bundles succeeds exactly when they are compatible; the result has
      the id, the anchor and the operations of the destination, and shows the union. */
  lemma {:induction false} BundlesMerge(d: WitnessBundle, s: WitnessBundle)
    requires ValidBundle(d) && ValidBundle(s)
    ensures MergeBundle(d, s).Some? <==> Compatible(d, s)
    ensures MergeBundle(d, s).Some? ==> Merged(MergeBundle(d, s).value, d, s)
  {
    hide BundleId, TransitionId, CanonicalTransition, MergeKnown, PositionsById, KnownError, Discloses, IdOf, Alike;
    ValidKnown(d);
    ValidKnown(s);
    var dst, src, byId := d.bundle.known, s.bundle.known, PositionsById(d.bundle.known);
    forall id | id in byId ensures byId[id] < |dst| && IdOf(dst[byId[id]]) == id {
      PositionsByIdMean(dst, id);
    }
    KnownMerge(dst, byId, src);
    if MergeBundle(d, s).Some? {
      MergedValid(d, MergeKnown(dst, byId, src).value);
    }
  }

  lemma {:induction false} AllFiled(dst: seq<Known>, src: seq<Known>, byId: map<Digest, nat>)
    requires forall id :: id in byId <==> Has(dst, id)
    ensures (forall k :: 0 <= k < |src| ==> IdOf(src[k]) in byId) <==> (forall op :: Has(src, op) ==> Has(dst, op))
  {
    hide IdOf;
    if forall op :: Has(src, op) ==> Has(dst, op) {
      forall k | 0 <= k < |src| ensures IdOf(src[k]) in byId {
        assert Has(src, IdOf(src[k]));
      }
    }
  }

  lemma {:induction false} MergedValid(d: WitnessBundle, known: seq<Known>)
    requires ValidBundle(d) && CanonicalKnown(known) && SameIds(known, d.bundle.known)
    ensures ValidBundle(d.(bundle := d.bundle.(known := known)))
  {
    hide BundleId, TransitionId, CanonicalTransition, KnownError;
    ValidKnown(d);
    KnownOk(d.bundle.known, InputOps(d.bundle.inputMap));
    KnownOk(known, InputOps(d.bundle.inputMap));
  }

  // ----- the merge of one bundle, loop by loop

  method IndexKnown(known: seq<Known>) returns (byId: map<Digest, nat>)
    ensures byId == PositionsById(known)
  {
    hide TransitionId;
    byId := map[];
    for index := 0 to |known|
      invariant byId == PositionsById(known[..index])
    {
      assert known[..index + 1][..index] == known[..index];
      byId := byId[TransitionId(known[index].transition) := index];
    }
    assert known[..|known|] == known;
  }

  method MergeOperation(ds: seq<Entry>, ss: seq<Entry>) returns (r: Option<seq<Entry>>)
    ensures r == MergeEntries(ds, ss)
  {
    if |ds| != |ss| {
      return None;
    }
    var merged: seq<Entry> := [];
    assert ds[0..] == ds && ss[0..] == ss;
    PrefixedNone(MergeEntries(ds, ss));
    for i := 0 to |ds|
      invariant MergeEntries(ds, ss) == Prefixed(merged, MergeEntries(ds[i..], ss[i..]))
    {
      assert ds[i..][0] == ds[i] && ss[i..][0] == ss[i] && ds[i..][1..] == ds[i + 1..] && ss[i..][1..] == ss[i + 1..];
      if ds[i].ty != ss[i].ty || ds[i].kind != ss[i].kind {
        return None;
      }
      var list := new Assignment[|ds[i].assigns|](k requires 0 <= k < |ds[i].assigns| => ds[i].assigns[k]);
      assert list[..] == ds[i].assigns;
      var ok := MergeItemsInPlace(list, ss[i].assigns);
      if !ok {
        return None;
      }
      var entry := Entry(ds[i].ty, ds[i].kind, list[..]);
      PrefixedMore(merged, entry, MergeEntries(ds[i + 1..], ss[i + 1..]));
      merged := merged + [entry];
    }
    assert ds[|ds|..] == [] && ss[|ds|..] == [] && merged + [] == merged;
    return Some(merged);
  }

  method MergeWitnessBundle(d: WitnessBundle, s: WitnessBundle) returns (r: Option<WitnessBundle>)
    ensures r == MergeBundle(d, s)
  {
    hide TransitionId, MergeEntries, PositionsById;
    if d.pub != s.pub || d.mpc != s.mpc || d.dbc != s.dbc || |d.bundle.known| != |s.bundle.known| {
      return None;
    }
    var known, src := d.bundle.known, s.bundle.known;
    var byId := IndexKnown(known);
    for i := 0 to |src|
      invariant MergeKnown(d.bundle.known, byId, src) == MergeKnown(known, byId, src[i..])
    {
      assert src[i..][0] == src[i] && src[i..][1..] == src[i + 1..];
      var id := TransitionId(src[i].transition);
      if src[i].transition.inputs == [] || id !in byId || byId[id] >= |known| {
        return None;
      }
      var target := known[byId[id]].transition;
      var merged := MergeOperation(target.assignments, src[i].transition.assignments);
      if merged.None? {
        return None;
      }
      known := known[byId[id] := known[byId[id]].(transition := target.(assignments := merged.value))];
    }
    return Some(d.(bundle := d.bundle.(known := known)));
  }
}
