/** What identifiers commit to: an operation id fixes the operation up to the
    disclosure of its seals, and a bundle id fixes the input map. */
module Commitments {
  import opened Bytes
  import opened Merkle
  import opened Operations
  import opened Symbols
  import opened Wrappers

  // ----- seals

  /** The last twelve symbols are output index and blinding factor. */
  lemma {:induction false} TailInjective(a: seq<Sym>, vout: nat, blinding: nat, b: seq<Sym>, vout': nat, blinding': nat)
    requires vout < U32 && vout' < U32 && blinding < U64 && blinding' < U64 && |a| == |b|
    requires a + (LE(vout, 4) + LE(blinding, 8)) == b + (LE(vout', 4) + LE(blinding', 8))
    ensures a == b && vout == vout' && blinding == blinding'
  {
    hide LE;
    SplitEqual(a, LE(vout, 4) + LE(blinding, 8), b, LE(vout', 4) + LE(blinding', 8));
    SplitEqual(LE(vout, 4), LE(blinding, 8), LE(vout', 4), LE(blinding', 8));
    Pow256Widths();
    LEInjective(vout, vout', 4);
    LEInjective(blinding, blinding', 8);
  }

  function SealHead(s: Seal): seq<Sym> {
    match s
    case BlindSeal(txid, _, _) => [D(txid)]
    case GraphSeal(ptr, _, _) => PtrRecord(ptr)
  }

  lemma {:induction false} HeadInjective(s: Seal, t: Seal)
    requires SealHead(s) == SealHead(t)
    ensures s.BlindSeal? == t.BlindSeal? && (s.BlindSeal? ==> s.txid == t.txid)
    ensures s.GraphSeal? && t.GraphSeal? ==> s.ptr == t.ptr
  {
    assert |SealHead(s)| > 0 && SealHead(s)[0] == SealHead(t)[0];
    if |SealHead(s)| == 2 {
      assert SealHead(s)[1] == SealHead(t)[1];
    }
  }

  /** A secret seal conceals one seal only. */
  lemma {:induction false} ConcealInjective(s: Seal, t: Seal)
    requires CanonicalSeal(s) && CanonicalSeal(t) && Conceal(s) == Conceal(t)
    ensures s == t
  {
    hide LE;
    assert SealRecord(s) == SealHead(s) + (LE(s.vout, 4) + LE(s.blinding, 8));
    assert SealRecord(t) == SealHead(t) + (LE(t.vout, 4) + LE(t.blinding, 8));
    TailInjective(SealHead(s), s.vout, s.blinding, SealHead(t), t.vout, t.blinding);
    HeadInjective(s, t);
  }

  // ----- records

  lemma {:induction false} StateInjective(s: State, t: State)
    requires CanonicalState(s) && CanonicalState(t) && StateRecord(s) == StateRecord(t)
    ensures s == t
  {
    if s.Fungible? && t.Fungible? {
      FungibleInjective(s.amount, t.amount);
    } else if s.Structured? && t.Structured? {
      DataInjective(s.data, t.data);
    } else if s.Fungible? && t.Structured? {
      StatesDiffer(s.amount, t.data);
    } else if t.Fungible? && s.Structured? {
      StatesDiffer(t.amount, s.data);
    }
  }

  lemma {:induction false} FungibleInjective(a: nat, b: nat)
    requires a < U64 && b < U64 && [B(8)] + LE(a, 8) == [B(8)] + LE(b, 8)
    ensures a == b
  {
    hide LE;
    SplitEqual([B(8)], LE(a, 8), [B(8)], LE(b, 8));
    Pow256Widths();
    LEInjective(a, b, 8);
  }

  lemma {:induction false} DataInjective(a: Data, b: Data)
    requires DataRecord(a) == DataRecord(b)
    ensures a == b
  {
    hide LE;
    SplitEqual(LE(ByteLength(a), 2), a, LE(ByteLength(b), 2), b);
  }

  lemma {:induction false} NineBytes(data: Data)
    requires |DataRecord(data)| == 9 && forall i :: 0 <= i < 9 ==> DataRecord(data)[i].B?
    ensures DataRecord(data)[0] == B(7)
  {
    ByteLengthLeast(data);
    assert forall i :: 0 <= i < |data| ==> data[i] == DataRecord(data)[i + 2];
    assert DataRecord(data)[0] == B(LittleEndian(7, 2)[0]);
  }

  /** A fungible state starts with its type 8 and fills nine bytes; structured
      state of nine bytes starts with its length 7. */
  lemma {:induction false} StatesDiffer(amount: nat, data: Data)
    ensures [B(8)] + LE(amount, 8) != DataRecord(data)
  {
    assert forall i :: 0 <= i < 8 ==> LE(amount, 8)[i].B?;
    hide DataRecord, LE;
    if [B(8)] + LE(amount, 8) == DataRecord(data) {
      NineBytes(data);
    }
  }

  lemma {:induction false} AssignmentInjective(ty: nat, a: Assignment, ty': nat, b: Assignment)
    requires ty < U16 && ty' < U16 && CanonicalState(a.state) && CanonicalState(b.state)
    requires AssignmentRecord(ty, a) == AssignmentRecord(ty', b)
    ensures ty == ty' && a.state == b.state && Secret(a) == Secret(b)
  {
    hide LE, StateRecord, Secret;
    var x, y := StateRecord(a.state), StateRecord(b.state);
    assert AssignmentRecord(ty, a) == LE(ty, 2) + (x + [D(Secret(a))]);
    assert AssignmentRecord(ty', b) == LE(ty', 2) + (y + [D(Secret(b))]);
    SplitEqual(LE(ty, 2), x + [D(Secret(a))], LE(ty', 2), y + [D(Secret(b))]);
    SplitEqual(x, [D(Secret(a))], y, [D(Secret(b))]);
    Pow256Widths();
    LEInjective(ty, ty', 2);
    StateInjective(a.state, b.state);
    assert [D(Secret(a))][0] == [D(Secret(b))][0];
  }

  lemma {:induction false} GlobalInjective(ty: nat, v: Data, ty': nat, w: Data)
    requires ty < U16 && ty' < U16
    requires GlobalRecord(ty, v) == GlobalRecord(ty', w)
    ensures ty == ty' && v == w
  {
    hide LE;
    SplitEqual(LE(ty, 2), DataRecord(v), LE(ty', 2), DataRecord(w));
    Pow256Widths();
    LEInjective(ty, ty', 2);
    DataInjective(v, w);
  }

  lemma {:induction false} RefInjective(a: InputRef, b: InputRef)
    requires CanonicalRef(a) && CanonicalRef(b) && RefRecord(a) == RefRecord(b)
    ensures a == b
  {
    hide LE;
    assert RefRecord(a)[0] == D(a.op) && RefRecord(b)[0] == D(b.op);
    assert RefRecord(a)[1..3] == LE(a.ty, 2) && RefRecord(b)[1..3] == LE(b.ty, 2);
    assert RefRecord(a)[3..5] == LE(a.no, 2) && RefRecord(b)[3..5] == LE(b.no, 2);
    Pow256Widths();
    LEInjective(a.ty, b.ty, 2);
    LEInjective(a.no, b.no, 2);
  }

  // ----- groups of one type, flattened

  datatype Group<X> = Group(ty: nat, items: seq<X>)

  function Tagged<X>(ty: nat, items: seq<X>): (r: seq<(nat, X)>)
    ensures |r| == |items|
    ensures forall i :: 0 <= i < |r| ==> r[i] == (ty, items[i])
  {
    if items == [] then [] else [(ty, items[0])] + Tagged(ty, items[1..])
  }

  function Flat<X>(gs: seq<Group<X>>): seq<(nat, X)> {
    if gs == [] then [] else Tagged(gs[0].ty, gs[0].items) + Flat(gs[1..])
  }

  /** No group is empty and types increase, as in a canonical map of lists. */
  ghost predicate Grouped<X>(gs: seq<Group<X>>) {
    && (forall i :: 0 <= i < |gs| ==> gs[i].items != [])
    && (forall i, j :: 0 <= i < j < |gs| ==> gs[i].ty < gs[j].ty)
  }

  lemma {:induction false} FlatHead<X>(gs: seq<Group<X>>)
    requires Grouped(gs) && gs != []
    ensures Flat(gs) != [] && Flat(gs)[0] == (gs[0].ty, gs[0].items[0])
    ensures |gs[0].items| < |Flat(gs)| ==> Flat(gs)[|gs[0].items|].0 > gs[0].ty
    ensures Grouped(gs[1..])
  {
    var rest := gs[1..];
    assert Grouped(rest) by {
      forall i, j | 0 <= i < j < |rest| ensures rest[i].ty < rest[j].ty { assert gs[i + 1].ty < gs[j + 1].ty; }
    }
    if rest != [] {
      assert rest[0] == gs[1];
      assert Flat(rest)[0] == (gs[1].ty, gs[1].items[0]);
    }
  }

  lemma {:induction false} InFirstGroup<X>(gs: seq<Group<X>>, k: nat)
    requires gs != []
    ensures k < |gs[0].items| ==> k < |Flat(gs)| && Flat(gs)[k].0 == gs[0].ty
  {
  }

  lemma {:induction false} FirstGroup<X>(gs: seq<Group<X>>, hs: seq<Group<X>>)
    requires Grouped(gs) && Grouped(hs) && gs != [] && hs != [] && Flat(gs) == Flat(hs)
    ensures gs[0].ty == hs[0].ty && |gs[0].items| <= |hs[0].items|
  {
    FlatHead(gs);
    FlatHead(hs);
    InFirstGroup(gs, |hs[0].items|);
  }

  /** Types increase strictly, so the flat list says where each group ends. */
  lemma {:induction false} FlatInjective<X>(gs: seq<Group<X>>, hs: seq<Group<X>>)
    requires Grouped(gs) && Grouped(hs) && Flat(gs) == Flat(hs)
    ensures gs == hs
  {
    if gs == [] {
      if hs != [] { FlatHead(hs); }
    } else if hs == [] {
      FlatHead(gs);
    } else {
      FirstGroup(gs, hs);
      FirstGroup(hs, gs);
      var x, y := Tagged(gs[0].ty, gs[0].items), Tagged(hs[0].ty, hs[0].items);
      SplitEqual(x, Flat(gs[1..]), y, Flat(hs[1..]));
      assert gs[0].items == hs[0].items by {
        forall i | 0 <= i < |gs[0].items| ensures gs[0].items[i] == hs[0].items[i] {
          assert x[i] == y[i];
        }
      }
      FlatHead(gs);
      FlatHead(hs);
      FlatInjective(gs[1..], hs[1..]);
      assert gs == [gs[0]] + gs[1..] && hs == [hs[0]] + hs[1..];
    }
  }

  // ----- operations up to the disclosure of seals

  function Concealed(a: Assignment): Assignment {
    Confidential(Secret(a), a.state)
  }

  function ConcealedAll(assigns: seq<Assignment>): (r: seq<Assignment>)
    ensures |r| == |assigns|
    ensures forall i :: 0 <= i < |r| ==> r[i] == Concealed(assigns[i])
  {
    if assigns == [] then [] else [Concealed(assigns[0])] + ConcealedAll(assigns[1..])
  }

  function ConcealedEntries(es: seq<Entry>): (r: seq<Entry>)
    ensures |r| == |es|
    ensures forall i :: 0 <= i < |r| ==> r[i] == Entry(es[i].ty, es[i].kind, ConcealedAll(es[i].assigns))
  {
    if es == [] then [] else [Entry(es[0].ty, es[0].kind, ConcealedAll(es[0].assigns))] + ConcealedEntries(es[1..])
  }

  /** What is left of a transition when every seal is concealed and the signature dropped. */
  function Public(t: Transition): Transition {
    t.(assignments := ConcealedEntries(t.assignments), signature := None)
  }

  function PublicGenesis(g: Genesis): Genesis {
    g.(assignments := ConcealedEntries(g.assignments))
  }

  function EntryGroups(es: seq<Entry>): (r: seq<Group<Assignment>>)
    ensures |r| == |es|
    ensures forall i :: 0 <= i < |r| ==> r[i] == Group(es[i].ty, ConcealedAll(es[i].assigns))
  {
    if es == [] then [] else [Group(es[0].ty, ConcealedAll(es[0].assigns))] + EntryGroups(es[1..])
  }

  ghost predicate CanonicalItem(x: (nat, Assignment)) {
    x.0 < U16 && CanonicalState(x.1.state) && x.1.Confidential?
  }

  lemma {:induction false} ConcealedRecord(ty: nat, a: Assignment)
    ensures AssignmentRecord(ty, Concealed(a)) == AssignmentRecord(ty, a)
  {
  }

  lemma {:induction false} RecordsFlat(es: seq<Entry>)
    requires CanonicalEntries(es)
    ensures |Records(es)| == |Flat(EntryGroups(es))|
    ensures forall k :: 0 <= k < |Records(es)| ==>
              && CanonicalItem(Flat(EntryGroups(es))[k])
              && Records(es)[k] == AssignmentRecord(Flat(EntryGroups(es))[k].0, Flat(EntryGroups(es))[k].1)
  {
    hide AssignmentRecord;
    if es != [] {
      var e, rest := es[0], es[1..];
      assert CanonicalEntry(e);
      RestCanonical(es);
      RecordsFlat(rest);
      assert EntryGroups(es)[1..] == EntryGroups(rest);
      var head := EntryRecords(e.ty, e.assigns);
      var tags := Tagged(e.ty, ConcealedAll(e.assigns));
      forall k | 0 <= k < |head|
        ensures CanonicalItem(tags[k]) && head[k] == AssignmentRecord(tags[k].0, tags[k].1)
      {
        assert CanonicalAssignment(e.kind, e.assigns[k]);
        ConcealedRecord(e.ty, e.assigns[k]);
      }
      assert Records(es) == head + Records(rest) && Flat(EntryGroups(es)) == tags + Flat(EntryGroups(rest));
    }
  }

  lemma {:induction false} RestCanonical(es: seq<Entry>)
    requires CanonicalEntries(es) && es != []
    ensures CanonicalEntries(es[1..])
  {
    var rest := es[1..];
    forall i | 0 <= i < |rest| ensures CanonicalEntry(rest[i]) { assert CanonicalEntry(es[i + 1]); }
    forall i, j | 0 <= i < j < |rest| ensures rest[i].ty < rest[j].ty { assert es[i + 1].ty < es[j + 1].ty; }
  }

  lemma {:induction false} EntriesGrouped(es: seq<Entry>)
    requires CanonicalEntries(es)
    ensures Grouped(EntryGroups(es))
  {
    forall i | 0 <= i < |es| ensures EntryGroups(es)[i].items != [] {
      assert CanonicalEntry(es[i]);
    }
    forall i, j | 0 <= i < j < |es| ensures EntryGroups(es)[i].ty < EntryGroups(es)[j].ty {
      assert es[i].ty < es[j].ty;
    }
  }

  lemma {:induction false} SameItems(es: seq<Entry>, fs: seq<Entry>)
    requires CanonicalEntries(es) && CanonicalEntries(fs) && Records(es) == Records(fs)
    ensures Flat(EntryGroups(es)) == Flat(EntryGroups(fs))
  {
    hide AssignmentRecord, Records, Flat, CanonicalEntries;
    RecordsFlat(es);
    RecordsFlat(fs);
    var x, y := Flat(EntryGroups(es)), Flat(EntryGroups(fs));
    forall k | 0 <= k < |x| ensures x[k] == y[k] {
      assert Records(es)[k] == AssignmentRecord(x[k].0, x[k].1) && Records(fs)[k] == AssignmentRecord(y[k].0, y[k].1);
      AssignmentInjective(x[k].0, x[k].1, y[k].0, y[k].1);
    }
  }

  /** The records determine types, classes, states and secrets of all assignments. */
  lemma {:induction false} RecordsBind(es: seq<Entry>, fs: seq<Entry>)
    requires CanonicalEntries(es) && CanonicalEntries(fs) && Records(es) == Records(fs)
    ensures ConcealedEntries(es) == ConcealedEntries(fs)
  {
    SameItems(es, fs);
    EntriesGrouped(es);
    EntriesGrouped(fs);
    FlatInjective(EntryGroups(es), EntryGroups(fs));
    forall i | 0 <= i < |es| ensures ConcealedEntries(es)[i] == ConcealedEntries(fs)[i] {
      SameGroup(es, fs, i);
    }
  }

  lemma {:induction false} SameGroup(es: seq<Entry>, fs: seq<Entry>, i: nat)
    requires CanonicalEntries(es) && CanonicalEntries(fs) && EntryGroups(es) == EntryGroups(fs) && i < |es|
    ensures |fs| == |es| && ConcealedEntries(es)[i] == ConcealedEntries(fs)[i]
  {
    assert |EntryGroups(fs)| == |es|;
    assert EntryGroups(es)[i] == EntryGroups(fs)[i];
    assert CanonicalEntry(es[i]) && CanonicalEntry(fs[i]);
    var a, b := es[i].assigns[0], fs[i].assigns[0];
    assert CanonicalAssignment(es[i].kind, a) && CanonicalAssignment(fs[i].kind, b);
    assert Concealed(a) == ConcealedAll(es[i].assigns)[0] == ConcealedAll(fs[i].assigns)[0] == Concealed(b);
  }

  /** Concealing changes no record. */
  lemma {:induction false} RecordsConcealed(es: seq<Entry>)
    ensures Records(ConcealedEntries(es)) == Records(es)
  {
    hide AssignmentRecord;
    if es != [] {
      RecordsConcealed(es[1..]);
      assert ConcealedEntries(es)[1..] == ConcealedEntries(es[1..]);
      var x, y := EntryRecords(es[0].ty, es[0].assigns), EntryRecords(es[0].ty, ConcealedAll(es[0].assigns));
      assert x == y by {
        forall i | 0 <= i < |x| ensures x[i] == y[i] {
          ConcealedRecord(es[0].ty, es[0].assigns[i]);
        }
      }
    }
  }

  lemma {:induction false} RecordsFit(es: seq<Entry>)
    requires CanonicalEntries(es)
    ensures |Records(es)| <= 0xffff * |es|
  {
    hide AssignmentRecord;
    if es != [] {
      assert CanonicalEntry(es[0]);
      RestCanonical(es);
      RecordsFit(es[1..]);
    }
  }

  // ----- globals

  function ValueGroups(gs: seq<Global>): (r: seq<Group<Data>>)
    ensures |r| == |gs|
    ensures forall i :: 0 <= i < |r| ==> r[i] == Group(gs[i].ty, gs[i].values)
  {
    if gs == [] then [] else [Group(gs[0].ty, gs[0].values)] + ValueGroups(gs[1..])
  }

  ghost predicate CanonicalValue(x: (nat, Data)) {
    x.0 < U16 && ByteLength(x.1) < U16
  }

  lemma {:induction false} RestGlobals(gs: seq<Global>)
    requires CanonicalGlobals(gs) && gs != []
    ensures CanonicalGlobals(gs[1..]) && CanonicalGlobal(gs[0])
  {
    var rest := gs[1..];
    forall i | 0 <= i < |rest| ensures CanonicalGlobal(rest[i]) { assert CanonicalGlobal(gs[i + 1]); }
    forall i, j | 0 <= i < j < |rest| ensures rest[i].ty < rest[j].ty { assert gs[i + 1].ty < gs[j + 1].ty; }
  }

  lemma {:induction false} GlobalsFlat(gs: seq<Global>)
    requires CanonicalGlobals(gs)
    ensures |GlobalRecords(gs)| == |Flat(ValueGroups(gs))| <= 0xffff * |gs|
    ensures forall k :: 0 <= k < |GlobalRecords(gs)| ==>
              && CanonicalValue(Flat(ValueGroups(gs))[k])
              && GlobalRecords(gs)[k] == GlobalRecord(Flat(ValueGroups(gs))[k].0, Flat(ValueGroups(gs))[k].1)
  {
    hide GlobalRecord;
    if gs != [] {
      RestGlobals(gs);
      GlobalsFlat(gs[1..]);
      assert ValueGroups(gs)[1..] == ValueGroups(gs[1..]);
      var head, tags := ValueRecords(gs[0].ty, gs[0].values), Tagged(gs[0].ty, gs[0].values);
      assert GlobalRecords(gs) == head + GlobalRecords(gs[1..]) && Flat(ValueGroups(gs)) == tags + Flat(ValueGroups(gs[1..]));
    }
  }

  lemma {:induction false} GlobalsGrouped(gs: seq<Global>)
    requires CanonicalGlobals(gs)
    ensures Grouped(ValueGroups(gs))
  {
    forall i | 0 <= i < |gs| ensures ValueGroups(gs)[i].items != [] { assert CanonicalGlobal(gs[i]); }
    forall i, j | 0 <= i < j < |gs| ensures ValueGroups(gs)[i].ty < ValueGroups(gs)[j].ty { assert gs[i].ty < gs[j].ty; }
  }

  lemma {:induction false} GlobalsBind(gs: seq<Global>, hs: seq<Global>)
    requires CanonicalGlobals(gs) && CanonicalGlobals(hs) && GlobalRecords(gs) == GlobalRecords(hs)
    ensures gs == hs
  {
    GlobalsFlat(gs);
    GlobalsFlat(hs);
    var x, y := Flat(ValueGroups(gs)), Flat(ValueGroups(hs));
    forall k | 0 <= k < |x| ensures x[k] == y[k] {
      hide GlobalRecord;
      assert GlobalRecords(gs)[k] == GlobalRecord(x[k].0, x[k].1) && GlobalRecords(hs)[k] == GlobalRecord(y[k].0, y[k].1);
      assert CanonicalValue(x[k]) && CanonicalValue(y[k]);
      GlobalInjective(x[k].0, x[k].1, y[k].0, y[k].1);
    }
    GlobalsGrouped(gs);
    GlobalsGrouped(hs);
    FlatInjective(ValueGroups(gs), ValueGroups(hs));
    assert |gs| == |ValueGroups(gs)| == |ValueGroups(hs)| == |hs|;
    forall i | 0 <= i < |gs| ensures gs[i] == hs[i] {
      assert ValueGroups(gs)[i] == ValueGroups(hs)[i];
    }
  }

  // ----- metadata

  function MetaHead(m: Meta): seq<Sym> {
    LE(m.ty, 2) + DataRecord(m.value)
  }

  lemma {:induction false} MetaHeadInjective(m: Meta, s: seq<Sym>, n: Meta, t: seq<Sym>)
    requires m.ty < U16 && n.ty < U16 && ByteLength(m.value) < U16 && ByteLength(n.value) < U16
    requires MetaHead(m) + s == MetaHead(n) + t
    ensures m == n && s == t
  {
    hide LE;
    var v, w := ByteLength(m.value), ByteLength(n.value);
    var x, y := m.value + s, n.value + t;
    assert MetaHead(m) + s == LE(m.ty, 2) + (LE(v, 2) + x);
    assert MetaHead(n) + t == LE(n.ty, 2) + (LE(w, 2) + y);
    SplitEqual(LE(m.ty, 2), LE(v, 2) + x, LE(n.ty, 2), LE(w, 2) + y);
    SplitEqual(LE(v, 2), x, LE(w, 2), y);
    Pow256Widths();
    LEInjective(m.ty, n.ty, 2);
    LEInjective(v, w, 2);
    ByteSplit(m.value, s, n.value, t);
  }

  lemma {:induction false} MetadataBinds(ms: seq<Meta>, ns: seq<Meta>)
    requires CanonicalMetadata(ms) && CanonicalMetadata(ns) && |ms| == |ns|
    requires MetaRecord(ms) == MetaRecord(ns)
    ensures ms == ns
  {
    hide LE, DataRecord;
    if ms != [] {
      assert MetaRecord(ms) == MetaHead(ms[0]) + MetaRecord(ms[1..]);
      assert MetaRecord(ns) == MetaHead(ns[0]) + MetaRecord(ns[1..]);
      MetaHeadInjective(ms[0], MetaRecord(ms[1..]), ns[0], MetaRecord(ns[1..]));
      MetadataBinds(ms[1..], ns[1..]);
      assert ms == [ms[0]] + ms[1..] && ns == [ns[0]] + ns[1..];
    }
  }

  lemma {:induction false} MetaHashBinds(ms: seq<Meta>, ns: seq<Meta>)
    requires CanonicalMetadata(ms) && CanonicalMetadata(ns)
    requires LE(|ms|, 1) + MetaRecord(ms) == LE(|ns|, 1) + MetaRecord(ns)
    ensures ms == ns
  {
    hide LE, MetaRecord;
    SplitEqual(LE(|ms|, 1), MetaRecord(ms), LE(|ns|, 1), MetaRecord(ns));
    Pow256Widths();
    LEInjective(|ms|, |ns|, 1);
    MetadataBinds(ms, ns);
  }

  // ----- the four roots and the identifiers

  ghost predicate CanonicalParts(ms: seq<Meta>, gs: seq<Global>, inputs: seq<InputRef>, es: seq<Entry>) {
    && CanonicalMetadata(ms) && CanonicalGlobals(gs) && CanonicalEntries(es)
    && |inputs| < U16 && (forall i :: 0 <= i < |inputs| ==> CanonicalRef(inputs[i]))
  }

  // Leaves and nodes of a tree are hashed under one tag, so a single record can
  // read as the top node of a longer list. Exactly which one can:

  /** What follows the low half of the number of leaves in their top node. */
  function Filler(leaves: nat): (r: seq<Sym>)
    ensures |r| == 30
  {
    LE(leaves, 4)[2..] + Plain(Repeat(0, 28))
  }

  /** The assignment that reads as the top node over `leaves`. */
  function MaskAssignment(leaves: seq<Digest>): Assignment {
    var n := TopNode(leaves, 0, |leaves|);
    Confidential(n.2, Structured(Filler(|leaves|) + [D(n.1)]))
  }

  /** The global value that reads as the top node over `leaves`. */
  function MaskValue(leaves: seq<Digest>): Data {
    var n := TopNode(leaves, 0, |leaves|);
    Filler(|leaves|) + [D(n.1), D(n.2)]
  }

  lemma {:induction false} SmallNumber(n: byte)
    ensures LE(n, 2) == [B(n), B(0)]
  {
    assert LittleEndian(n, 2)[1] == 0;
  }

  lemma {:induction false} TopSplits(leaves: seq<Digest>)
    ensures var n := TopNode(leaves, 0, |leaves|);
            TopRecord(leaves) == LE(n.0, 2) + (LE(|leaves|, 4) + (Plain(Repeat(0, 28)) + [D(n.1), D(n.2)]))
  {
    hide LE, Plain;
    SmallNumber(TopNode(leaves, 0, |leaves|).0);
  }

  /** A number of leaves starts with the length of the data exactly when their low halves agree. */
  lemma {:induction false} LowHalf(w: nat, v: nat)
    requires v < U16
    ensures LE(w, 4)[..2] == LE(v, 2) <==> w % U16 == v
  {
    var x, y := LittleEndian(w, 4), LittleEndian(v, 2);
    assert x[0] == w % 256 && x[1] == w / 256 % 256 && y[0] == v % 256 && y[1] == v / 256;
    assert LE(w, 4)[..2] == [B(x[0]), B(x[1])] && LE(v, 2) == [B(y[0]), B(y[1])];
    assert w % U16 == w % 256 + 256 * (w / 256 % 256);
  }

  lemma {:induction false} DataIs(x: Data, w: nat, tail: seq<Sym>)
    requires ByteLength(x) < U16
    ensures DataRecord(x) == LE(w, 4) + tail <==> x == LE(w, 4)[2..] + tail && w % U16 == ByteLength(x)
  {
    hide LE;
    var number := LE(w, 4);
    assert number + tail == number[..2] + (number[2..] + tail);
    LowHalf(w, ByteLength(x));
    if DataRecord(x) == number + tail {
      SplitEqual(LE(ByteLength(x), 2), x, number[..2], number[2..] + tail);
    }
  }

  lemma {:induction false} FillerBytes(leaves: nat, tail: seq<Sym>)
    ensures ByteLength(Filler(leaves) + tail) == 30 + ByteLength(tail)
  {
    ByteLengthConcat(Filler(leaves), tail);
    ByteLengthLeast(Filler(leaves));
  }

  lemma {:induction false} MaskValueFits(leaves: seq<Digest>)
    ensures ByteLength(MaskValue(leaves)) == 94
  {
    hide Filler;
    var n := TopNode(leaves, 0, |leaves|);
    FillerBytes(|leaves|, [D(n.1), D(n.2)]);
    assert [D(n.1)] + [D(n.2)] == [D(n.1), D(n.2)];
    ByteLengthConcat([D(n.1)], [D(n.2)]);
    assert ByteLength([D(n.1)]) == ByteLength([D(n.2)]) == 32;
  }

  /** An assignment reads as the top node of other records exactly when these are 62
      modulo 2^16 and it is the one assignment of type 2 that quotes their halves. */
  lemma {:induction false} AssignmentIsTop(ty: nat, a: Assignment, others: seq<seq<Sym>>)
    requires ty < U16 && CanonicalState(a.state)
    ensures IsTop(AssignmentRecord(ty, a), others) <==>
            ty == 2 && |others| % U16 == 62 && Concealed(a) == MaskAssignment(Leaves(others))
  {
    hide LE, Filler;
    var leaves := Leaves(others);
    var w, n := |leaves|, TopNode(leaves, 0, |leaves|);
    var zeros := Plain(Repeat(0, 28));
    TopSplits(leaves);
    assert LE(w, 4) + (zeros + [D(n.1), D(n.2)]) == LE(w, 4) + (zeros + [D(n.1)]) + [D(n.2)];
    assert AssignmentRecord(ty, a) == LE(ty, 2) + (StateRecord(a.state) + [D(Secret(a))]);
    StateIsTop(a.state, w, n.1);
    Pow256Widths();
    if IsTop(AssignmentRecord(ty, a), others) {
      SplitEqual(LE(ty, 2), StateRecord(a.state) + [D(Secret(a))], LE(n.0, 2), LE(w, 4) + (zeros + [D(n.1)]) + [D(n.2)]);
      SplitEqual(StateRecord(a.state), [D(Secret(a))], LE(w, 4) + (zeros + [D(n.1)]), [D(n.2)]);
      LEInjective(ty, n.0, 2);
      assert [D(Secret(a))][0] == [D(n.2)][0];
    }
  }

  lemma {:induction false} StateIsTop(s: State, w: nat, left: Digest)
    requires CanonicalState(s)
    ensures StateRecord(s) == LE(w, 4) + (Plain(Repeat(0, 28)) + [D(left)]) <==>
            w % U16 == 62 && s == Structured(Filler(w) + [D(left)])
  {
    var tail := Plain(Repeat(0, 28)) + [D(left)];
    assert Filler(w) + [D(left)] == LE(w, 4)[2..] + tail;
    FillerBytes(w, [D(left)]);
    if s.Structured? {
      DataIs(s.data, w, tail);
    }
  }

  /** A global reads as the top node of other records exactly when these are 94
      modulo 2^16 and it is the one value of type 2 that quotes their halves. */
  lemma {:induction false} GlobalIsTop(ty: nat, v: Data, others: seq<seq<Sym>>)
    requires ty < U16 && ByteLength(v) < U16
    ensures IsTop(GlobalRecord(ty, v), others) <==> ty == 2 && |others| % U16 == 94 && v == MaskValue(Leaves(others))
  {
    hide LE;
    var leaves := Leaves(others);
    var w, n := |leaves|, TopNode(leaves, 0, |leaves|);
    var tail := Plain(Repeat(0, 28)) + [D(n.1), D(n.2)];
    TopSplits(leaves);
    assert Filler(w) + [D(n.1), D(n.2)] == LE(w, 4)[2..] + tail;
    MaskValueFits(leaves);
    DataIs(v, w, tail);
    Pow256Widths();
    var top := LE(n.0, 2) + (LE(w, 4) + tail);
    assert TopRecord(leaves) == top;
    assert v == MaskValue(leaves) <==> v == LE(w, 4)[2..] + tail;
    hide TopRecord, MaskValue, Filler;
    if GlobalRecord(ty, v) == top {
      SplitEqual(LE(ty, 2), DataRecord(v), LE(n.0, 2), LE(w, 4) + tail);
      LEInjective(ty, n.0, 2);
    }
  }

  /** A reference starts with a digest, a node does not. */
  lemma {:induction false} RefIsNoTop(r: InputRef, others: seq<seq<Sym>>)
    ensures !IsTop(RefRecord(r), others)
  {
    assert RefRecord(r)[0] == D(r.op);
    TopSplits(Leaves(others));
  }

  lemma {:induction false} InputsBind(a: seq<InputRef>, b: seq<InputRef>)
    requires |a| < U16 && |b| < U16
    requires forall i :: 0 <= i < |a| ==> CanonicalRef(a[i])
    requires forall i :: 0 <= i < |b| ==> CanonicalRef(b[i])
    requires MerkleRoot(Leaves(RefRecords(a))) == MerkleRoot(Leaves(RefRecords(b)))
    ensures a == b
  {
    hide MerkleRoot, RefRecord, IsTop;
    RootBinds(RefRecords(a), RefRecords(b));
    if |a| == 1 { RefIsNoTop(a[0], RefRecords(b)); }
    if |b| == 1 { RefIsNoTop(b[0], RefRecords(a)); }
    assert |a| == |RefRecords(a)| == |RefRecords(b)| == |b|;
    forall i | 0 <= i < |a| ensures a[i] == b[i] {
      assert RefRecords(a)[i] == RefRecords(b)[i];
      RefInjective(a[i], b[i]);
    }
  }

  /** These assignments are the single one that reads as the top node of the others. */
  predicate EntriesMask(es: seq<Entry>, others: seq<Entry>) {
    && |Records(others)| % U16 == 62
    && ConcealedEntries(es) == [Entry(2, StructuredClass, [MaskAssignment(Leaves(Records(others)))])]
  }

  predicate GlobalsMask(gs: seq<Global>, others: seq<Global>) {
    && |GlobalRecords(others)| % U16 == 94
    && gs == [Global(2, [MaskValue(Leaves(GlobalRecords(others)))])]
  }

  lemma {:induction false} OtherRecords(es: seq<Entry>)
    requires CanonicalEntries(es) && |es| > 1
    ensures |Records(es)| > 1
  {
    hide AssignmentRecord;
    assert es[1..][0] == es[1];
    assert CanonicalEntry(es[0]) && CanonicalEntry(es[1]);
  }

  lemma {:induction false} OneRecord(es: seq<Entry>)
    requires CanonicalEntries(es) && |Records(es)| == 1
    ensures |es| == 1 && |es[0].assigns| == 1 && Records(es) == [AssignmentRecord(es[0].ty, es[0].assigns[0])]
    ensures CanonicalAssignment(es[0].kind, es[0].assigns[0]) && es[0].ty < U16
  {
    hide AssignmentRecord;
    assert CanonicalEntry(es[0]);
    if |es| > 1 {
      OtherRecords(es);
    }
  }

  lemma {:induction false} MaskIsOne(es: seq<Entry>, others: seq<Entry>)
    requires EntriesMask(es, others)
    ensures |Records(es)| == 1
  {
    hide AssignmentRecord, MaskAssignment;
    RecordsConcealed(es);
    OneOfMany(Masking(others)[0]);
  }

  lemma {:induction false} EntriesMaskMeans(es: seq<Entry>, others: seq<Entry>)
    requires CanonicalEntries(es)
    ensures Masks(Records(es), Records(others)) <==> EntriesMask(es, others)
  {
    hide AssignmentRecord, MaskAssignment, IsTop;
    var all := Records(others);
    if EntriesMask(es, others) { MaskIsOne(es, others); }
    if |Records(es)| == 1 {
      OneRecord(es);
      var a := es[0].assigns[0];
      MaskCanonical(Leaves(all));
      AssignmentIsTop(es[0].ty, a, all);
      assert ConcealedEntries(es)[0] == Entry(es[0].ty, es[0].kind, ConcealedAll(es[0].assigns));
      assert ConcealedAll(es[0].assigns) == [Concealed(a)];
    }
  }

  /** Two lists of assignments have one root exactly when they differ at most in
      disclosure, or one is the single assignment that masks the other. */
  lemma {:induction false} AssignmentsBind(es: seq<Entry>, fs: seq<Entry>)
    requires CanonicalEntries(es) && CanonicalEntries(fs)
    ensures MerkleRoot(Leaves(Records(es))) == MerkleRoot(Leaves(Records(fs))) <==>
            ConcealedEntries(es) == ConcealedEntries(fs) || EntriesMask(es, fs) || EntriesMask(fs, es)
  {
    hide MerkleRoot, Masks, EntriesMask, AssignmentRecord;
    RecordsFit(es);
    RecordsFit(fs);
    RootBinds(Records(es), Records(fs));
    EntriesMaskMeans(es, fs);
    EntriesMaskMeans(fs, es);
    if Records(es) == Records(fs) {
      RecordsBind(es, fs);
    }
    if ConcealedEntries(es) == ConcealedEntries(fs) {
      RecordsConcealed(es);
      RecordsConcealed(fs);
    }
  }

  lemma {:induction false} OtherGlobals(gs: seq<Global>)
    requires CanonicalGlobals(gs) && |gs| > 1
    ensures |GlobalRecords(gs)| > 1
  {
    hide GlobalRecord;
    assert gs[1..][0] == gs[1];
    assert CanonicalGlobal(gs[0]) && CanonicalGlobal(gs[1]);
  }

  lemma {:induction false} OneGlobal(gs: seq<Global>)
    requires CanonicalGlobals(gs) && |GlobalRecords(gs)| == 1
    ensures |gs| == 1 && |gs[0].values| == 1 && GlobalRecords(gs) == [GlobalRecord(gs[0].ty, gs[0].values[0])]
    ensures gs[0].ty < U16 && ByteLength(gs[0].values[0]) < U16
  {
    hide GlobalRecord;
    RestGlobals(gs);
    if |gs| > 1 {
      OtherGlobals(gs);
    }
  }

  lemma {:induction false} GlobalsMaskMeans(gs: seq<Global>, others: seq<Global>)
    requires CanonicalGlobals(gs)
    ensures Masks(GlobalRecords(gs), GlobalRecords(others)) <==> GlobalsMask(gs, others)
  {
    hide GlobalRecord, MaskValue, IsTop;
    var x := MaskValue(Leaves(GlobalRecords(others)));
    assert |GlobalRecords([Global(2, [x])])| == 1;
    if |GlobalRecords(gs)| == 1 {
      OneGlobal(gs);
      GlobalIsTop(gs[0].ty, gs[0].values[0], GlobalRecords(others));
      assert gs == [gs[0]] && gs[0].values == [gs[0].values[0]];
    }
  }

  /** Two lists of globals have one root exactly when they are equal, or one is
      the single value that masks the other. */
  lemma {:induction false} GlobalsRootBinds(gs: seq<Global>, hs: seq<Global>)
    requires CanonicalGlobals(gs) && CanonicalGlobals(hs)
    ensures MerkleRoot(Leaves(GlobalRecords(gs))) == MerkleRoot(Leaves(GlobalRecords(hs))) <==>
            gs == hs || GlobalsMask(gs, hs) || GlobalsMask(hs, gs)
  {
    hide MerkleRoot, Masks, GlobalsMask, GlobalRecord;
    GlobalsFlat(gs);
    GlobalsFlat(hs);
    RootBinds(GlobalRecords(gs), GlobalRecords(hs));
    GlobalsMaskMeans(gs, hs);
    GlobalsMaskMeans(hs, gs);
    if GlobalRecords(gs) == GlobalRecords(hs) {
      GlobalsBind(gs, hs);
    }
  }

  /** Equal up to disclosure, or one masks the other. */
  predicate SameEntries(es: seq<Entry>, fs: seq<Entry>) {
    ConcealedEntries(es) == ConcealedEntries(fs) || EntriesMask(es, fs) || EntriesMask(fs, es)
  }

  predicate SameGlobals(gs: seq<Global>, hs: seq<Global>) {
    gs == hs || GlobalsMask(gs, hs) || GlobalsMask(hs, gs)
  }

  lemma {:induction false} RootsBind(ms: seq<Meta>, gs: seq<Global>, a: seq<InputRef>, es: seq<Entry>,
                  ns: seq<Meta>, hs: seq<Global>, b: seq<InputRef>, fs: seq<Entry>)
    requires CanonicalParts(ms, gs, a, es) && CanonicalParts(ns, hs, b, fs)
    ensures Roots(ms, gs, a, es) == Roots(ns, hs, b, fs) <==>
            ms == ns && SameGlobals(gs, hs) && a == b && SameEntries(es, fs)
  {
    hide MerkleRoot, LE, MetaRecord, GlobalsMask, EntriesMask;
    var x, y := Roots(ms, gs, a, es), Roots(ns, hs, b, fs);
    GlobalsRootBinds(gs, hs);
    AssignmentsBind(es, fs);
    if x == y {
      assert x[0] == y[0] && x[1] == y[1] && x[2] == y[2] && x[3] == y[3];
      MetaHashBinds(ms, ns);
      InputsBind(a, b);
    }
  }

  /** Everything of a transition that its id fixes without exception. */
  predicate SameFrame(t: Transition, u: Transition) {
    && t.ffv == u.ffv && t.nonce == u.nonce && t.contractId == u.contractId && t.ty == u.ty
    && t.metadata == u.metadata && t.inputs == u.inputs
  }

  /** Exactly when two transitions have one id. */
  lemma {:induction false} TransitionIdExact(t: Transition, u: Transition)
    requires CanonicalTransition(t) && CanonicalTransition(u)
    ensures TransitionId(t) == TransitionId(u) <==>
            SameFrame(t, u) && SameGlobals(t.globals, u.globals) && SameEntries(t.assignments, u.assignments)
  {
    hide Roots, LE, SameGlobals, SameEntries;
    RootsBind(t.metadata, t.globals, t.inputs, t.assignments, u.metadata, u.globals, u.inputs, u.assignments);
    if TransitionId(t) == TransitionId(u) {
      TransitionFields(t, u);
    }
  }

  /** No type id is 2, the number of children that a node record starts with. */
  predicate NoTypeTwo(gs: seq<Global>, es: seq<Entry>) {
    && (forall i :: 0 <= i < |gs| ==> gs[i].ty != 2)
    && (forall i :: 0 <= i < |es| ==> es[i].ty != 2)
  }

  lemma {:induction false} MaskType(es: seq<Entry>, others: seq<Entry>)
    requires EntriesMask(es, others)
    ensures |es| == 1 && es[0].ty == 2
  {
    hide Records, MaskAssignment;
    assert |ConcealedEntries(es)| == |es| == 1;
    assert ConcealedEntries(es)[0].ty == es[0].ty;
  }

  lemma {:induction false} GlobalMaskType(gs: seq<Global>, others: seq<Global>)
    requires GlobalsMask(gs, others)
    ensures |gs| == 1 && gs[0].ty == 2
  {
  }

  lemma {:induction false} NothingMasks(gs: seq<Global>, es: seq<Entry>, hs: seq<Global>, fs: seq<Entry>)
    requires NoTypeTwo(gs, es)
    ensures !GlobalsMask(gs, hs) && !EntriesMask(es, fs)
  {
    hide Records, GlobalRecords, MaskAssignment, MaskValue, EntriesMask, GlobalsMask;
    if GlobalsMask(gs, hs) { GlobalMaskType(gs, hs); }
    if EntriesMask(es, fs) { MaskType(es, fs); }
  }

  /** Without types 2, an operation id identifies the transition, up to which seals
      are disclosed and to the signature. */
  lemma {:induction false} TransitionIdBinds(t: Transition, u: Transition)
    requires CanonicalTransition(t) && CanonicalTransition(u)
    requires NoTypeTwo(t.globals, t.assignments) && NoTypeTwo(u.globals, u.assignments)
    ensures TransitionId(t) == TransitionId(u) <==> Public(t) == Public(u)
  {
    hide TransitionId, GlobalsMask, EntriesMask, CanonicalTransition;
    TransitionIdExact(t, u);
    NothingMasks(t.globals, t.assignments, u.globals, u.assignments);
    NothingMasks(u.globals, u.assignments, t.globals, t.assignments);
  }

  /** Disclosing or concealing seals never changes the id. */
  lemma {:induction false} PublicIsSame(t: Transition, u: Transition)
    requires Public(t) == Public(u)
    ensures TransitionId(t) == TransitionId(u)
  {
    hide Roots, LE;
    SameRoots(t.metadata, t.globals, t.inputs, t.assignments, u.assignments);
  }

  // ----- two operations of one id

  function Masking(others: seq<Entry>): seq<Entry> {
    [Entry(2, StructuredClass, [MaskAssignment(Leaves(Records(others)))])]
  }

  /** A transition with 62 assignments, whatever they are, has the id of another one
      with a single assignment of type 2. */
  lemma {:induction false} OneForMany(t: Transition)
    requires CanonicalTransition(t) && |Records(t.assignments)| % U16 == 62
    ensures var u := t.(assignments := Masking(t.assignments));
            CanonicalTransition(u) && TransitionId(u) == TransitionId(t) && Public(u) != Public(t)
  {
    hide Records, MaskAssignment, TransitionId, CanonicalMetadata, CanonicalGlobals;
    var es := Masking(t.assignments);
    var u := t.(assignments := es);
    var a := MaskAssignment(Leaves(Records(t.assignments)));
    MaskCanonical(Leaves(Records(t.assignments)));
    assert CanonicalEntry(es[0]);
    assert ConcealedEntries(es) == es by {
      assert ConcealedAll(es[0].assigns) == [a];
      assert ConcealedEntries(es)[0] == es[0];
    }
    assert EntriesMask(u.assignments, t.assignments);
    TransitionIdExact(u, t);
    OneOfMany(es[0]);
    RecordsConcealed(es);
    RecordsConcealed(t.assignments);
  }

  lemma {:induction false} ManyAssignments() returns (t: Transition)
    ensures CanonicalTransition(t) && t.inputs == [InputRef(ZERO, 4000, 0)] && |Records(t.assignments)| == 62
  {
    hide Records;
    var assigns := seq(62, i requires 0 <= i < 62 => Confidential(ZERO, Declarative));
    t := Transition(0, 0, ZERO, 10000, [], [], [InputRef(ZERO, 4000, 0)], [Entry(4000, DeclarativeClass, assigns)], None);
    OneOfMany(t.assignments[0]);
    assert CanonicalEntry(t.assignments[0]);
  }

  /** There are such operations. */
  lemma {:induction false} CollidingOperations() returns (t: Transition, u: Transition)
    ensures CanonicalTransition(t) && CanonicalTransition(u) && t.inputs != []
    ensures TransitionId(t) == TransitionId(u) && Public(t) != Public(u)
  {
    hide Records, TransitionId, MaskAssignment;
    t := ManyAssignments();
    OneForMany(t);
    u := t.(assignments := Masking(t.assignments));
  }

  lemma {:induction false} OneOfMany(e: Entry)
    ensures |Records([e])| == |e.assigns|
  {
    hide AssignmentRecord;
    assert Records([e]) == EntryRecords(e.ty, e.assigns) + Records([]);
  }

  lemma {:induction false} MaskCanonical(leaves: seq<Digest>)
    ensures var a := MaskAssignment(leaves); a.Confidential? && CanonicalAssignment(StructuredClass, a)
  {
    hide Filler;
    FillerBytes(|leaves|, [D(TopNode(leaves, 0, |leaves|).1)]);
  }

  lemma {:induction false} SameRoots(ms: seq<Meta>, gs: seq<Global>, inputs: seq<InputRef>, es: seq<Entry>, fs: seq<Entry>)
    requires ConcealedEntries(es) == ConcealedEntries(fs)
    ensures Roots(ms, gs, inputs, es) == Roots(ms, gs, inputs, fs)
  {
    hide MerkleRoot, LE, MetaRecord;
    RecordsConcealed(es);
    RecordsConcealed(fs);
  }

  lemma {:induction false} TransitionFields(t: Transition, u: Transition)
    requires CanonicalTransition(t) && CanonicalTransition(u) && TransitionRecord(t) == TransitionRecord(u)
    ensures t.ffv == u.ffv && t.nonce == u.nonce && t.contractId == u.contractId && t.ty == u.ty
    ensures Roots(t.metadata, t.globals, t.inputs, t.assignments) == Roots(u.metadata, u.globals, u.inputs, u.assignments)
  {
    hide Roots, LE;
    var r, s := Roots(t.metadata, t.globals, t.inputs, t.assignments), Roots(u.metadata, u.globals, u.inputs, u.assignments);
    SplitEqual(LE(t.ffv, 2), LE(t.nonce, 8) + ([B(1), D(t.contractId)] + (LE(t.ty, 2) + r)),
               LE(u.ffv, 2), LE(u.nonce, 8) + ([B(1), D(u.contractId)] + (LE(u.ty, 2) + s)));
    SplitEqual(LE(t.nonce, 8), [B(1), D(t.contractId)] + (LE(t.ty, 2) + r),
               LE(u.nonce, 8), [B(1), D(u.contractId)] + (LE(u.ty, 2) + s));
    SplitEqual([B(1), D(t.contractId)], LE(t.ty, 2) + r, [B(1), D(u.contractId)], LE(u.ty, 2) + s);
    SplitEqual(LE(t.ty, 2), r, LE(u.ty, 2), s);
    assert [B(1), D(t.contractId)][1] == [B(1), D(u.contractId)][1];
    Pow256Widths();
    LEInjective(t.ffv, u.ffv, 2);
    LEInjective(t.nonce, u.nonce, 8);
    LEInjective(t.ty, u.ty, 2);
  }

  /** No transition has the id of a genesis: the byte after the nonce differs. */
  lemma {:induction false} GenesisIsNoTransition(g: Genesis, t: Transition)
    ensures GenesisId(g) != TransitionId(t)
  {
    hide Roots, LE;
    assert GenesisRecord(g)[10] == B(0);
    assert TransitionRecord(t)[10] == B(1);
  }

  /** Everything of a genesis that its id fixes without exception. */
  predicate SameHeader(g: Genesis, h: Genesis) {
    && g.ffv == h.ffv && g.schemaId == h.schemaId && g.timestamp == h.timestamp && g.issuer == h.issuer
    && g.chain == h.chain && g.strategy == h.strategy && g.metadata == h.metadata
  }

  /** Exactly when two geneses have one contract id. */
  lemma {:induction false} GenesisIdExact(g: Genesis, h: Genesis)
    requires CanonicalGenesis(g) && CanonicalGenesis(h)
    ensures GenesisId(g) == GenesisId(h) <==>
            SameHeader(g, h) && SameGlobals(g.globals, h.globals) && SameEntries(g.assignments, h.assignments)
  {
    hide Roots, LE, SameGlobals, SameEntries;
    RootsBind(g.metadata, g.globals, [], g.assignments, h.metadata, h.globals, [], h.assignments);
    if GenesisId(g) == GenesisId(h) {
      GenesisFields(g, h);
    }
  }

  /** A genesis with 94 global values, whatever they are, has the id of another one
      with a single value of type 2. */
  lemma {:induction false} OneGlobalForMany(g: Genesis)
    requires CanonicalGenesis(g) && |GlobalRecords(g.globals)| % U16 == 94
    ensures var h := g.(globals := [Global(2, [MaskValue(Leaves(GlobalRecords(g.globals)))])]);
            CanonicalGenesis(h) && GenesisId(h) == GenesisId(g) && PublicGenesis(h) != PublicGenesis(g)
  {
    hide GlobalRecords, MaskValue, GenesisId, CanonicalMetadata, CanonicalEntries;
    var v := MaskValue(Leaves(GlobalRecords(g.globals)));
    MaskValueFits(Leaves(GlobalRecords(g.globals)));
    var h := g.(globals := [Global(2, [v])]);
    assert CanonicalGlobal(h.globals[0]);
    assert GlobalsMask(h.globals, g.globals);
    GenesisIdExact(h, g);
    OneValue(v);
  }

  lemma {:induction false} OneValue(v: Data)
    ensures |GlobalRecords([Global(2, [v])])| == 1
  {
    hide GlobalRecord;
  }

  /** Without types 2, the contract id identifies the genesis, up to which seals are disclosed. */
  lemma {:induction false} GenesisIdBinds(g: Genesis, h: Genesis)
    requires CanonicalGenesis(g) && CanonicalGenesis(h)
    requires NoTypeTwo(g.globals, g.assignments) && NoTypeTwo(h.globals, h.assignments)
    ensures GenesisId(g) == GenesisId(h) <==> PublicGenesis(g) == PublicGenesis(h)
  {
    hide GenesisId, GlobalsMask, EntriesMask, CanonicalGenesis;
    GenesisIdExact(g, h);
    NothingMasks(g.globals, g.assignments, h.globals, h.assignments);
    NothingMasks(h.globals, h.assignments, g.globals, g.assignments);
  }

  lemma {:induction false} GenesisFields(g: Genesis, h: Genesis)
    requires CanonicalGenesis(g) && CanonicalGenesis(h) && GenesisRecord(g) == GenesisRecord(h)
    ensures g.ffv == h.ffv && g.schemaId == h.schemaId && g.timestamp == h.timestamp && g.issuer == h.issuer
    ensures g.chain == h.chain && g.strategy == h.strategy
    ensures Roots(g.metadata, g.globals, [], g.assignments) == Roots(h.metadata, h.globals, [], h.assignments)
  {
    hide Roots, LE;
    var r, s := Roots(g.metadata, g.globals, [], g.assignments), Roots(h.metadata, h.globals, [], h.assignments);
    var i, j := DataRecord(g.issuer), DataRecord(h.issuer);
    var x, y := [D(Hash(StrictValue, i)), B(g.chain), B(g.strategy)], [D(Hash(StrictValue, j)), B(h.chain), B(h.strategy)];
    SplitEqual(LE(g.ffv, 2), LE(U64 - 1, 8) + ([B(0), D(g.schemaId)] + (LE(g.timestamp, 8) + (x + r))),
               LE(h.ffv, 2), LE(U64 - 1, 8) + ([B(0), D(h.schemaId)] + (LE(h.timestamp, 8) + (y + s))));
    SplitEqual(LE(U64 - 1, 8), [B(0), D(g.schemaId)] + (LE(g.timestamp, 8) + (x + r)),
               LE(U64 - 1, 8), [B(0), D(h.schemaId)] + (LE(h.timestamp, 8) + (y + s)));
    SplitEqual([B(0), D(g.schemaId)], LE(g.timestamp, 8) + (x + r), [B(0), D(h.schemaId)], LE(h.timestamp, 8) + (y + s));
    SplitEqual(LE(g.timestamp, 8), x + r, LE(h.timestamp, 8), y + s);
    SplitEqual(x, r, y, s);
    assert [B(0), D(g.schemaId)][1] == [B(0), D(h.schemaId)][1];
    assert x[0] == y[0] && x[1] == y[1] && x[2] == y[2];
    Pow256Widths();
    LEInjective(g.ffv, h.ffv, 2);
    LEInjective(g.timestamp, h.timestamp, 8);
    DataInjective(g.issuer, h.issuer);
  }

  // ----- bundles

  function CommitRecord(c: Commit): (s: seq<Sym>)
    ensures |s| == 6
  {
    RefRecord(c.input) + [D(c.op)]
  }

  lemma {:induction false} InputMapBinds(m: seq<Commit>, n: seq<Commit>)
    requires |m| == |n| && InputMapRecord(m) == InputMapRecord(n)
    requires forall i :: 0 <= i < |m| ==> CanonicalRef(m[i].input)
    requires forall i :: 0 <= i < |n| ==> CanonicalRef(n[i].input)
    ensures m == n
  {
    hide RefRecord;
    if m != [] {
      assert InputMapRecord(m) == CommitRecord(m[0]) + InputMapRecord(m[1..]);
      assert InputMapRecord(n) == CommitRecord(n[0]) + InputMapRecord(n[1..]);
      SplitEqual(CommitRecord(m[0]), InputMapRecord(m[1..]), CommitRecord(n[0]), InputMapRecord(n[1..]));
      SplitEqual(RefRecord(m[0].input), [D(m[0].op)], RefRecord(n[0].input), [D(n[0].op)]);
      RefInjective(m[0].input, n[0].input);
      assert [D(m[0].op)][0] == [D(n[0].op)][0];
      InputMapBinds(m[1..], n[1..]);
      assert m == [m[0]] + m[1..] && n == [n[0]] + n[1..];
    }
  }

  /** A bundle id fixes which operation every committed input goes to. */
  lemma {:induction false} BundleIdBinds(m: seq<Commit>, n: seq<Commit>)
    requires CanonicalInputMap(m) && CanonicalInputMap(n)
    ensures BundleId(m) == BundleId(n) <==> m == n
  {
    hide LE, InputMapRecord;
    if BundleId(m) == BundleId(n) {
      SplitEqual(LE(|m|, 2), InputMapRecord(m), LE(|n|, 2), InputMapRecord(n));
      Pow256Widths();
      LEInjective(|m|, |n|, 2);
      InputMapBinds(m, n);
    }
  }

  /** Through one bundle id, an input is committed to one operation only. */
  lemma {:induction false} OneOperationPerInput(m: seq<Commit>, n: seq<Commit>, input: InputRef, a: Digest, b: Digest)
    requires CanonicalInputMap(m) && CanonicalInputMap(n) && BundleId(m) == BundleId(n)
    requires InputMapCommits(m, input, a) && InputMapCommits(n, input, b)
    ensures a == b
  {
    BundleIdBinds(m, n);
    var i :| 0 <= i < |m| && m[i] == Commit(input, a);
    var j :| 0 <= j < |m| && m[j] == Commit(input, b);
  }
}
