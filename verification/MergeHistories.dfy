/** Merging whole histories of one contract. */
module MergeHistories {
  import opened Agreement
  import opened Bytes
  import opened Collections
  import opened Commitments
  import opened Merge
  import opened Operations
  import opened Outputs
  import opened Symbols
  import opened Validator
  import opened Wrappers

  /** A decoded container; the encodings of version, schema, types and scripts are its static part. */
  datatype Container = Container(structural: bool, contract: Digest, schemaId: Digest, fixed: seq<byte>, value: Consignment)

  predicate SameStatic(a: Container, b: Container) {
    a.fixed == b.fixed && a.value.genesis == b.value.genesis
  }

  // ----- the merge as a function

  function BundleIds(bundles: seq<WitnessBundle>): (ids: seq<Digest>)
    ensures |ids| == |bundles|
    ensures forall p :: 0 <= p < |bundles| ==> ids[p] == BundleIdOf(bundles[p])
  {
    seq(|bundles|, p requires 0 <= p < |bundles| => BundleIdOf(bundles[p]))
  }

  /** The last position of an id. */
  function Position(ids: seq<Digest>, id: Digest): (r: Option<nat>)
    ensures r.Some? ==> r.value < |ids| && ids[r.value] == id
    ensures r.None? ==> id !in ids
  {
    if ids == [] then None
    else if ids[|ids| - 1] == id then Some(|ids| - 1)
    else Position(ids[..|ids| - 1], id)
  }

  /** The position of a bundle id. */
  function Find(bundles: seq<WitnessBundle>, id: Digest): (r: Option<nat>)
    ensures r.Some? ==> r.value < |bundles|
  {
    Position(BundleIds(bundles), id)
  }

  lemma {:induction false} FindMeans(bundles: seq<WitnessBundle>, id: Digest)
    ensures Find(bundles, id).Some? ==> BundleIdOf(bundles[Find(bundles, id).value]) == id
    ensures Find(bundles, id).None? ==> forall p :: 0 <= p < |bundles| ==> BundleIdOf(bundles[p]) != id
  {
    hide BundleIdOf, Position;
    if Find(bundles, id).None? {
      forall p | 0 <= p < |bundles| ensures BundleIdOf(bundles[p]) != id {
        assert BundleIds(bundles)[p] in BundleIds(bundles);
      }
    }
  }

  /** One bundle of a candidate: merged into the bundle of its id, or appended. */
  function AbsorbOne(bundles: seq<WitnessBundle>, item: WitnessBundle): Option<seq<WitnessBundle>> {
    if BundleOf(item.bundle).Err? then None
    else
      match Find(bundles, BundleIdOf(item))
      case Some(p) =>
        (match MergeBundle(bundles[p], item)
         case None => None
         case Some(m) => Some(bundles[p := m]))
      case None => if |bundles| >= U32 - 1 then None else Some(bundles + [item])
  }

  function Absorb(bundles: seq<WitnessBundle>, items: seq<WitnessBundle>): Option<seq<WitnessBundle>>
    decreases items
  {
    if items == [] then Some(bundles)
    else
      match AbsorbOne(bundles, items[0])
      case None => None
      case Some(next) => Absorb(next, items[1..])
  }

  /** Every bundle of the base commits, and no id comes twice. */
  ghost predicate GoodBase(bundles: seq<WitnessBundle>) {
    && (forall p :: 0 <= p < |bundles| ==> BundleOf(bundles[p].bundle).Ok?)
    && DistinctBundles(bundles)
  }

  ghost predicate DistinctBundles(bundles: seq<WitnessBundle>) {
    forall p, q :: 0 <= p < q < |bundles| ==> BundleIdOf(bundles[p]) != BundleIdOf(bundles[q])
  }

  predicate Joins(base: Container, candidate: Option<Container>) {
    && candidate.Some? && candidate.value.structural && candidate.value.contract == base.contract
    && candidate.value.schemaId == base.schemaId && SameStatic(base, candidate.value)
  }

  function AbsorbAll(base: Container, bundles: seq<WitnessBundle>, candidates: seq<Option<Container>>): Option<seq<WitnessBundle>>
    decreases candidates
  {
    if candidates == [] then Some(bundles)
    else if !Joins(base, candidates[0]) then None
    else
      match Absorb(bundles, candidates[0].value.value.bundles)
      case None => None
      case Some(next) => AbsorbAll(base, next, candidates[1..])
  }

  /** The merged consignment: a transfer without terminals. */
  ghost function Merging(containers: seq<Option<Container>>): Option<Consignment> {
    if containers == [] || containers[0].None? || !containers[0].value.structural then None
    else
      var base := containers[0].value;
      if !GoodBase(base.value.bundles) then None
      else
        match AbsorbAll(base, base.value.bundles, containers[1..])
        case None => None
        case Some(bundles) => Some(Consignment(base.value.genesis, true, [], bundles))
  }

  // ----- the merge as a program

  class Merger {
    var bundles: seq<WitnessBundle>
    var index: map<Digest, nat>

    constructor ()
      ensures bundles == [] && index == map[] && Valid()
    {
      bundles, index := [], map[];
      new;
      assert Find([], ZERO) == None;
    }

    /** The index files every bundle under its id. */
    ghost predicate Valid()
      reads this
    {
      forall id :: if id in index then Find(bundles, id) == Some(index[id]) else Find(bundles, id) == None
    }

    /** The bundles of the base, in order; a repeated id is refused. */
    method Load(items: seq<WitnessBundle>) returns (ok: bool)
      requires Valid() && bundles == []
      modifies this
      ensures ok <==> GoodBase(items)
      ensures ok ==> Valid() && bundles == items
    {
      hide BundleId, BundleOf;
      for position := 0 to |items|
        invariant Valid() && bundles == items[..position] && GoodBase(items[..position])
      {
        var commitment := CommitBundle(items[position].bundle);
        assert items[..position + 1] == items[..position] + [items[position]];
        if commitment.Err? {
          return false;
        }
        var id := BundleId(items[position].bundle.inputMap);
        if id in index {
          RepeatedId(items, position, index[id]);
          return false;
        }
        GoodMore(items[..position], items[position]);
        FindMore(bundles, items[position]);
        bundles, index := bundles + [items[position]], index[id := position];
      }
      assert items[..|items|] == items;
      return true;
    }

    /** The bundles of one candidate. */
    method AbsorbBundles(items: seq<WitnessBundle>) returns (ok: bool)
      requires Valid()
      modifies this
      ensures ok <==> Absorb(old(bundles), items).Some?
      ensures ok ==> Valid() && Some(bundles) == Absorb(old(bundles), items)
    {
      hide BundleId, BundleOf, MergeBundle;
      for i := 0 to |items|
        invariant Valid() && Absorb(old(bundles), items) == Absorb(bundles, items[i..])
      {
        var item := items[i];
        assert items[i..][1..] == items[i + 1..] && items[i..][0] == item;
        var commitment := CommitBundle(item.bundle);
        if commitment.Err? {
          return false;
        }
        var id := BundleId(item.bundle.inputMap);
        if id in index {
          var merged := MergeWitnessBundle(bundles[index[id]], item);
          if merged.None? {
            return false;
          }
          MergeKeepsId(bundles[index[id]], item);
          FindSame(bundles, index[id], merged.value);
          bundles := bundles[index[id] := merged.value];
        } else {
          if |bundles| >= U32 - 1 {
            return false;
          }
          FindMore(bundles, item);
          bundles, index := bundles + [item], index[id := |bundles|];
        }
      }
      return true;
    }
  }

  method MergeContainers(containers: seq<Option<Container>>) returns (r: Option<Consignment>)
    ensures r == Merging(containers)
  {
    if containers == [] || containers[0].None? || !containers[0].value.structural {
      return None;
    }
    var base := containers[0].value;
    var merger := new Merger();
    var ok := merger.Load(base.value.bundles);
    if !ok {
      return None;
    }
    var rest := containers[1..];
    for i := 0 to |rest|
      invariant merger.Valid() && fresh(merger)
      invariant AbsorbAll(base, base.value.bundles, rest) == AbsorbAll(base, merger.bundles, rest[i..])
    {
      assert rest[i..][1..] == rest[i + 1..] && rest[i..][0] == rest[i];
      if rest[i].None? || !rest[i].value.structural || rest[i].value.contract != base.contract || rest[i].value.schemaId != base.schemaId {
        return None;
      }
      if rest[i].value.fixed != base.fixed || rest[i].value.value.genesis != base.value.genesis {
        return None;
      }
      ok := merger.AbsorbBundles(rest[i].value.value.bundles);
      if !ok {
        return None;
      }
    }
    return Some(Consignment(base.value.genesis, true, [], merger.bundles));
  }

  lemma {:induction false} RepeatedId(items: seq<WitnessBundle>, position: nat, p: nat)
    requires position < |items| && Find(items[..position], BundleIdOf(items[position])) == Some(p)
    ensures !GoodBase(items)
  {
    hide BundleIdOf;
    FindMeans(items[..position], BundleIdOf(items[position]));
    assert items[..position][p] == items[p];
  }

  lemma {:induction false} GoodMore(bundles: seq<WitnessBundle>, item: WitnessBundle)
    requires GoodBase(bundles) && BundleOf(item.bundle).Ok? && Find(bundles, BundleIdOf(item)) == None
    ensures GoodBase(bundles + [item])
  {
    hide BundleIdOf, BundleOf, Find;
    FindMeans(bundles, BundleIdOf(item));
  }

  lemma {:induction false} FindMore(bundles: seq<WitnessBundle>, item: WitnessBundle)
    ensures forall id :: Find(bundles + [item], id) == if BundleIdOf(item) == id then Some(|bundles|) else Find(bundles, id)
  {
    hide BundleIdOf;
    assert (bundles + [item])[..|bundles|] == bundles;
    assert BundleIds(bundles + [item])[..|bundles|] == BundleIds(bundles);
  }

  lemma {:induction false} MergeKeepsId(d: WitnessBundle, s: WitnessBundle)
    ensures MergeBundle(d, s).Some? ==> BundleIdOf(MergeBundle(d, s).value) == BundleIdOf(d)
  {
  }

  lemma {:induction false} FindSame(bundles: seq<WitnessBundle>, p: nat, m: WitnessBundle)
    requires p < |bundles| && BundleIdOf(m) == BundleIdOf(bundles[p])
    ensures forall id :: Find(bundles[p := m], id) == Find(bundles, id)
  {
    hide BundleIdOf;
    assert BundleIds(bundles[p := m]) == BundleIds(bundles);
  }

  // ----- what a list of bundles tells

  /** A bundle, an operation disclosed in it, or an output revealed by that operation. */
  datatype Fact = BundleFact(id: Digest) | OperationFact(id: Digest, op: Digest) | RevealFact(id: Digest, op: Digest, ty: nat, no: nat)

  ghost predicate TellsAt(wb: WitnessBundle, f: Fact) {
    && BundleIdOf(wb) == f.id
    && match f
       case BundleFact(_) => true
       case OperationFact(_, op) => Has(wb.bundle.known, op)
       case RevealFact(_, op, ty, no) => Discloses(wb.bundle.known, op, ty, no)
  }

  ghost predicate Tells(bundles: seq<WitnessBundle>, f: Fact) {
    exists p :: 0 <= p < |bundles| && TellsAt(bundles[p], f)
  }

  ghost predicate AllValid(bundles: seq<WitnessBundle>) {
    forall p :: 0 <= p < |bundles| ==> ValidBundle(bundles[p])
  }

  lemma {:induction false} SameIdsSameHas(a: seq<Known>, b: seq<Known>, op: Digest)
    requires SameIds(a, b)
    ensures Has(a, op) <==> Has(b, op)
  {
    hide IdOf;
    if Has(a, op) {
      var k :| 0 <= k < |a| && IdOf(a[k]) == op;
      assert Redisclosed(a[k], b[k]) && IdOf(b[k]) == op;
    }
    if Has(b, op) {
      var k :| 0 <= k < |b| && IdOf(b[k]) == op;
      assert Redisclosed(a[k], b[k]) && IdOf(a[k]) == op;
    }
  }

  lemma {:induction false} MergedTells(m: WitnessBundle, d: WitnessBundle, s: WitnessBundle, f: Fact)
    requires ValidBundle(d) && ValidBundle(s) && MergeBundle(d, s) == Some(m) && BundleIdOf(d) == BundleIdOf(s)
    ensures TellsAt(m, f) <==> TellsAt(d, f) || TellsAt(s, f)
  {
    hide BundleIdOf, ValidBundle, MergeBundle, Discloses, IdOf, Compatible;
    BundlesMerge(d, s);
    if f.OperationFact? {
      CompatibleKnows(d, s);
      SameIdsSameHas(m.bundle.known, d.bundle.known, f.op);
    }
  }

  /** One absorbed bundle adds exactly what it tells, and keeps bundles valid and distinct. */
  lemma {:induction false} AbsorbOneTells(bundles: seq<WitnessBundle>, item: WitnessBundle)
    requires AllValid(bundles) && DistinctBundles(bundles) && ValidBundle(item) && AbsorbOne(bundles, item).Some?
    ensures var m := AbsorbOne(bundles, item).value;
            && AllValid(m) && DistinctBundles(m)
            && forall f :: Tells(m, f) <==> Tells(bundles, f) || TellsAt(item, f)
  {
    hide BundleIdOf, ValidBundle, MergeBundle, TellsAt, BundleOf, Find;
    var m := AbsorbOne(bundles, item).value;
    FindMeans(bundles, BundleIdOf(item));
    if Find(bundles, BundleIdOf(item)).Some? {
      var p := Find(bundles, BundleIdOf(item)).value;
      MergeKeepsId(bundles[p], item);
      BundlesMerge(bundles[p], item);
      forall f ensures Tells(m, f) <==> Tells(bundles, f) || TellsAt(item, f) {
        MergedTells(m[p], bundles[p], item, f);
        TellsReplaced(bundles, p, m[p], item, f);
      }
    } else {
      forall f ensures Tells(m, f) <==> Tells(bundles, f) || TellsAt(item, f) {
        TellsAppended(bundles, item, f);
      }
    }
  }

  lemma {:induction false} TellsReplaced(bundles: seq<WitnessBundle>, p: nat, m: WitnessBundle, item: WitnessBundle, f: Fact)
    requires p < |bundles| && (TellsAt(m, f) <==> TellsAt(bundles[p], f) || TellsAt(item, f))
    ensures Tells(bundles[p := m], f) <==> Tells(bundles, f) || TellsAt(item, f)
  {
    hide TellsAt;
    var next := bundles[p := m];
    if Tells(bundles, f) {
      var q :| 0 <= q < |bundles| && TellsAt(bundles[q], f);
      assert TellsAt(next[q], f);
    }
    if TellsAt(item, f) {
      assert TellsAt(next[p], f);
    }
    if Tells(next, f) {
      var q :| 0 <= q < |next| && TellsAt(next[q], f);
      assert q != p ==> TellsAt(bundles[q], f);
    }
  }

  lemma {:induction false} TellsAppended(bundles: seq<WitnessBundle>, item: WitnessBundle, f: Fact)
    ensures Tells(bundles + [item], f) <==> Tells(bundles, f) || TellsAt(item, f)
  {
    hide TellsAt;
    var next := bundles + [item];
    if Tells(bundles, f) {
      var q :| 0 <= q < |bundles| && TellsAt(bundles[q], f);
      assert TellsAt(next[q], f);
    }
    assert next[|bundles|] == item;
    if Tells(next, f) {
      var q :| 0 <= q < |next| && TellsAt(next[q], f);
      assert q < |bundles| ==> TellsAt(bundles[q], f);
    }
  }

  lemma {:induction false} TellsCons(items: seq<WitnessBundle>, f: Fact)
    requires items != []
    ensures Tells(items, f) <==> TellsAt(items[0], f) || Tells(items[1..], f)
  {
    hide TellsAt;
    if Tells(items[1..], f) {
      var q :| 0 <= q < |items[1..]| && TellsAt(items[1..][q], f);
      assert TellsAt(items[q + 1], f);
    }
    if Tells(items, f) {
      var q :| 0 <= q < |items| && TellsAt(items[q], f);
      assert q > 0 ==> TellsAt(items[1..][q - 1], f);
    }
  }

  lemma {:induction false} AbsorbTells(bundles: seq<WitnessBundle>, items: seq<WitnessBundle>)
    requires AllValid(bundles) && DistinctBundles(bundles) && AllValid(items) && Absorb(bundles, items).Some?
    ensures var m := Absorb(bundles, items).value;
            && AllValid(m) && DistinctBundles(m)
            && forall f :: Tells(m, f) <==> Tells(bundles, f) || Tells(items, f)
    decreases items
  {
    hide BundleIdOf, ValidBundle, AbsorbOne, TellsAt;
    if items != [] {
      AbsorbOneTells(bundles, items[0]);
      var next := AbsorbOne(bundles, items[0]).value;
      assert AllValid(items[1..]) by { assert forall k :: 0 <= k < |items[1..]| ==> items[1..][k] == items[k + 1]; }
      AbsorbTells(next, items[1..]);
      forall f ensures Tells(Absorb(bundles, items).value, f) <==> Tells(bundles, f) || Tells(items, f) {
        TellsCons(items, f);
      }
    } else {
      assert forall f :: !Tells([], f);
    }
  }

  /** What the candidates tell. */
  ghost predicate SomeTells(candidates: seq<Option<Container>>, f: Fact) {
    exists i :: 0 <= i < |candidates| && candidates[i].Some? && Tells(candidates[i].value.value.bundles, f)
  }

  ghost predicate AllContainersValid(candidates: seq<Option<Container>>) {
    forall i :: 0 <= i < |candidates| ==> candidates[i].Some? ==> AllValid(candidates[i].value.value.bundles)
  }

  lemma {:induction false} AbsorbAllTells(base: Container, bundles: seq<WitnessBundle>, candidates: seq<Option<Container>>)
    requires AllValid(bundles) && DistinctBundles(bundles) && AllContainersValid(candidates)
    requires AbsorbAll(base, bundles, candidates).Some?
    ensures var m := AbsorbAll(base, bundles, candidates).value;
            && AllValid(m) && DistinctBundles(m)
            && forall f :: Tells(m, f) <==> Tells(bundles, f) || SomeTells(candidates, f)
    decreases candidates
  {
    hide Tells, Absorb, AllValid, DistinctBundles;
    if candidates != [] {
      var items := candidates[0].value.value.bundles;
      assert AllValid(items);
      AbsorbTells(bundles, items);
      var rest := candidates[1..];
      assert AllContainersValid(rest) by { assert forall k :: 0 <= k < |rest| ==> rest[k] == candidates[k + 1]; }
      AbsorbAllTells(base, Absorb(bundles, items).value, rest);
      forall f ensures SomeTells(candidates, f) <==> Tells(items, f) || SomeTells(rest, f) {
        if SomeTells(rest, f) {
          var i :| 0 <= i < |rest| && rest[i].Some? && Tells(rest[i].value.value.bundles, f);
          assert candidates[i + 1] == rest[i];
        }
        if SomeTells(candidates, f) {
          var i :| 0 <= i < |candidates| && candidates[i].Some? && Tells(candidates[i].value.value.bundles, f);
          assert i > 0 ==> rest[i - 1] == candidates[i];
        }
      }
    }
  }

  /** A successful merge lists every bundle id once and tells exactly what the merged
      histories tell: their bundles, their operations under unchanged ids, and the
      union of their revealed outputs. */
  lemma {:induction false} MergeIsUnion(containers: seq<Option<Container>>)
    requires AllContainersValid(containers) && Merging(containers).Some?
    ensures var m := Merging(containers).value;
            && AllValid(m.bundles) && DistinctBundles(m.bundles)
            && forall f :: Tells(m.bundles, f) <==> SomeTells(containers, f)
  {
    hide Tells, AllValid, DistinctBundles, AbsorbAll;
    var base, rest := containers[0].value, containers[1..];
    assert AllContainersValid(rest) by { assert forall k :: 0 <= k < |rest| ==> rest[k] == containers[k + 1]; }
    AbsorbAllTells(base, base.value.bundles, rest);
    forall f ensures SomeTells(containers, f) <==> Tells(base.value.bundles, f) || SomeTells(rest, f) {
      if SomeTells(rest, f) {
        var i :| 0 <= i < |rest| && rest[i].Some? && Tells(rest[i].value.value.bundles, f);
        assert containers[i + 1] == rest[i];
      }
      if SomeTells(containers, f) {
        var i :| 0 <= i < |containers| && containers[i].Some? && Tells(containers[i].value.value.bundles, f);
        assert i > 0 ==> rest[i - 1] == containers[i];
      }
    }
  }

  /** Up to the order of lists, merging does not depend on the order of its arguments. */
  lemma {:induction false} MergeCommutes(a: Container, b: Container)
    requires AllValid(a.value.bundles) && AllValid(b.value.bundles)
    requires Merging([Some(a), Some(b)]).Some? && Merging([Some(b), Some(a)]).Some?
    ensures var x, y := Merging([Some(a), Some(b)]).value, Merging([Some(b), Some(a)]).value;
            && x.genesis == y.genesis && x.transfer == y.transfer && x.terminals == y.terminals
            && |x.bundles| == |y.bundles|
            && forall f :: Tells(x.bundles, f) <==> Tells(y.bundles, f)
  {
    hide AllValid, DistinctBundles, Tells, AbsorbAll, GoodBase;
    var p, q := [Some(a), Some(b)], [Some(b), Some(a)];
    var x, y := Merging(p).value, Merging(q).value;
    MergeIsUnion(p);
    MergeIsUnion(q);
    forall f ensures SomeTells(p, f) <==> SomeTells(q, f) {
      assert p[0] == q[1] && p[1] == q[0];
      if SomeTells(p, f) {
        var i :| 0 <= i < |p| && p[i].Some? && Tells(p[i].value.value.bundles, f);
        assert q[1 - i] == p[i];
      }
      if SomeTells(q, f) {
        var i :| 0 <= i < |q| && q[i].Some? && Tells(q[i].value.value.bundles, f);
        assert p[1 - i] == q[i];
      }
    }
    assert x.genesis == y.genesis by { MergeGenesis(a, b); MergeGenesis(b, a); }
    SameCount(x.bundles, y.bundles);
  }

  lemma {:induction false} MergeGenesis(a: Container, b: Container)
    requires Merging([Some(a), Some(b)]).Some?
    ensures Merging([Some(a), Some(b)]).value.genesis == a.value.genesis == b.value.genesis
  {
    hide GoodBase, Absorb;
    assert [Some(a), Some(b)][1..] == [Some(b)];
  }

  lemma {:induction false} DistinctSize(ids: seq<Digest>)
    requires Distinct(ids)
    ensures |Elements(ids)| == |ids|
  {
    if ids != [] {
      var n := |ids| - 1;
      DistinctSize(ids[..n]);
      assert ids == ids[..n] + [ids[n]];
      assert Elements(ids) == Elements(ids[..n]) + {ids[n]};
    }
  }

  lemma {:induction false} SameCount(x: seq<WitnessBundle>, y: seq<WitnessBundle>)
    requires DistinctBundles(x) && DistinctBundles(y) && forall f :: Tells(x, f) <==> Tells(y, f)
    ensures |x| == |y|
  {
    hide BundleIdOf, TellsAt, Tells;
    DistinctSize(BundleIds(x));
    DistinctSize(BundleIds(y));
    assert Elements(BundleIds(x)) == Elements(BundleIds(y)) by {
      forall id ensures id in BundleIds(x) <==> id in BundleIds(y) {
        TellsId(x, id);
        TellsId(y, id);
      }
    }
  }

  lemma {:induction false} TellsId(x: seq<WitnessBundle>, id: Digest)
    ensures id in BundleIds(x) <==> Tells(x, BundleFact(id))
  {
    hide BundleIdOf;
    if id in BundleIds(x) {
      var p :| 0 <= p < |x| && BundleIds(x)[p] == id;
      assert TellsAt(x[p], BundleFact(id));
    }
    if Tells(x, BundleFact(id)) {
      var p :| 0 <= p < |x| && TellsAt(x[p], BundleFact(id));
      assert BundleIds(x)[p] == id;
    }
  }
}
