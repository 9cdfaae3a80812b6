/** What merging does to the order of bundles. */
module MergeOrder {
  import opened Agreement
  import opened Bytes
  import opened Commitments
  import opened Merge
  import opened MergeHistories
  import opened Operations
  import opened Outputs
  import opened Symbols
  import opened Validator
  import opened Wrappers

  // ----- parents before children

  /** An operation is disclosed before the `k`-th transition of the `p`-th bundle. */
  ghost predicate Before(bundles: seq<WitnessBundle>, p: int, k: int, op: Digest) {
    exists q, j :: Stands(bundles, q, j, op) && (q < p || (q == p && j < k))
  }

  ghost predicate Stands(bundles: seq<WitnessBundle>, q: int, j: int, op: Digest) {
    0 <= q < |bundles| && 0 <= j < |bundles[q].bundle.known| && IdOf(bundles[q].bundle.known[j]) == op
  }

  /** Everything a disclosed transition spends is genesis or disclosed before it. */
  ghost predicate Ordered(contract: Digest, bundles: seq<WitnessBundle>) {
    forall p, k, r :: 0 <= p < |bundles| && 0 <= k < |bundles[p].bundle.known| && r in bundles[p].bundle.known[k].transition.inputs ==>
      r.op == contract || Before(bundles, p, k, r.op)
  }

  /** All operations disclosed in one list are disclosed in the other. */
  ghost predicate Includes(bundles: seq<WitnessBundle>, items: seq<WitnessBundle>) {
    forall q, j, op :: Stands(items, q, j, op) ==> exists p, k :: Stands(bundles, p, k, op)
  }

  ghost predicate SameShape(a: seq<WitnessBundle>, b: seq<WitnessBundle>) {
    |a| == |b| && forall p :: 0 <= p < |a| ==> SameIds(a[p].bundle.known, b[p].bundle.known)
  }

  lemma {:induction false} ShapeStands(a: seq<WitnessBundle>, b: seq<WitnessBundle>)
    requires SameShape(a, b)
    ensures forall q, j, op :: Stands(a, q, j, op) <==> Stands(b, q, j, op)
  {
    hide IdOf;
    forall q, j, op ensures Stands(a, q, j, op) <==> Stands(b, q, j, op) {
      if 0 <= q < |a| {
        assert SameIds(a[q].bundle.known, b[q].bundle.known);
      }
    }
  }

  lemma {:induction false} ShapeOrdered(contract: Digest, a: seq<WitnessBundle>, b: seq<WitnessBundle>)
    requires SameShape(a, b) && Ordered(contract, b)
    ensures Ordered(contract, a)
  {
    hide IdOf, Stands;
    ShapeStands(a, b);
    forall p, k, r | 0 <= p < |a| && 0 <= k < |a[p].bundle.known| && r in a[p].bundle.known[k].transition.inputs
      ensures r.op == contract || Before(a, p, k, r.op)
    {
      assert SameIds(a[p].bundle.known, b[p].bundle.known);
      if r.op != contract {
        assert Before(b, p, k, r.op);
        var q, j :| Stands(b, q, j, r.op) && (q < p || (q == p && j < k));
        assert Stands(a, q, j, r.op);
      }
    }
  }

  /** Merging a shared bundle moves nothing. */
  lemma {:induction false} AbsorbShared(contract: Digest, bundles: seq<WitnessBundle>, item: WitnessBundle)
    requires AllValid(bundles) && ValidBundle(item) && AbsorbOne(bundles, item).Some? && Find(bundles, BundleIdOf(item)).Some?
    ensures var m := AbsorbOne(bundles, item).value;
            && SameShape(m, bundles)
            && forall op :: Has(item.bundle.known, op) ==> Has(m[Find(bundles, BundleIdOf(item)).value].bundle.known, op)
  {
    hide ValidBundle, BundleIdOf, MergeBundle, IdOf, Discloses, BundleOf;
    var p := Find(bundles, BundleIdOf(item)).value;
    BundlesMerge(bundles[p], item);
    var m := AbsorbOne(bundles, item).value;
    CompatibleKnows(bundles[p], item);
    forall op | Has(item.bundle.known, op) ensures Has(m[p].bundle.known, op) {
      SameIdsSameHas(m[p].bundle.known, bundles[p].bundle.known, op);
    }
  }

  /** Appending the next bundle of an ordered list, when all before it is included, keeps the order. */
  lemma {:induction false} AppendOrdered(contract: Digest, bundles: seq<WitnessBundle>, done: seq<WitnessBundle>, item: WitnessBundle)
    requires Ordered(contract, bundles) && Includes(bundles, done) && Ordered(contract, done + [item])
    ensures Ordered(contract, bundles + [item])
  {
    hide IdOf;
    var next, all := bundles + [item], done + [item];
    forall p, k, r | 0 <= p < |next| && 0 <= k < |next[p].bundle.known| && r in next[p].bundle.known[k].transition.inputs && r.op != contract
      ensures Before(next, p, k, r.op)
    {
      if p < |bundles| {
        assert Before(bundles, p, k, r.op);
        var q, j :| Stands(bundles, q, j, r.op) && (q < p || (q == p && j < k));
        assert Stands(next, q, j, r.op);
      } else {
        assert all[|done|] == item;
        assert Before(all, |done|, k, r.op);
        var q, j :| Stands(all, q, j, r.op) && (q < |done| || (q == |done| && j < k));
        if q < |done| {
          assert Stands(done, q, j, r.op);
          var x, y :| Stands(bundles, x, y, r.op);
          assert Stands(next, x, y, r.op);
        } else {
          assert Stands(next, |bundles|, j, r.op);
        }
      }
    }
  }

  lemma {:induction false} AppendIncludes(bundles: seq<WitnessBundle>, done: seq<WitnessBundle>, item: WitnessBundle)
    requires Includes(bundles, done)
    ensures Includes(bundles + [item], done + [item])
  {
    hide IdOf;
    var next, all := bundles + [item], done + [item];
    forall q, j, op | Stands(all, q, j, op) ensures exists p, k :: Stands(next, p, k, op) {
      if q < |done| {
        assert Stands(done, q, j, op);
        var x, y :| Stands(bundles, x, y, op);
        assert Stands(next, x, y, op);
      } else {
        assert Stands(next, |bundles|, j, op);
      }
    }
  }

  lemma {:induction false} SharedIncludes(m: seq<WitnessBundle>, bundles: seq<WitnessBundle>, done: seq<WitnessBundle>, item: WitnessBundle, p: nat)
    requires Includes(bundles, done) && SameShape(m, bundles) && p < |m|
    requires forall op :: Has(item.bundle.known, op) ==> Has(m[p].bundle.known, op)
    ensures Includes(m, done + [item])
  {
    hide IdOf;
    var all := done + [item];
    ShapeStands(m, bundles);
    forall q, j, op | Stands(all, q, j, op) ensures exists x, y :: Stands(m, x, y, op) {
      if q < |done| {
        assert Stands(done, q, j, op);
        var x, y :| Stands(bundles, x, y, op);
        assert Stands(m, x, y, op);
      } else {
        assert IdOf(item.bundle.known[j]) == op;
        assert Has(item.bundle.known, op);
        var k :| 0 <= k < |m[p].bundle.known| && IdOf(m[p].bundle.known[k]) == op;
        assert Stands(m, p, k, op);
      }
    }
  }

  lemma {:induction false} PrefixOrdered(contract: Digest, a: seq<WitnessBundle>, b: seq<WitnessBundle>)
    requires Ordered(contract, a + b)
    ensures Ordered(contract, a)
  {
    hide IdOf;
    var all := a + b;
    forall p, k, r | 0 <= p < |a| && 0 <= k < |a[p].bundle.known| && r in a[p].bundle.known[k].transition.inputs && r.op != contract
      ensures Before(a, p, k, r.op)
    {
      assert all[p] == a[p];
      assert Before(all, p, k, r.op);
      var q, j :| Stands(all, q, j, r.op) && (q < p || (q == p && j < k));
      assert Stands(a, q, j, r.op);
    }
  }

  /** Absorbing the rest of an ordered list, whose beginning is already included, keeps the order. */
  lemma {:induction false} AbsorbKeepsOrder(contract: Digest, bundles: seq<WitnessBundle>, done: seq<WitnessBundle>, items: seq<WitnessBundle>)
    requires AllValid(bundles) && AllValid(items) && DistinctBundles(bundles) && Absorb(bundles, items).Some?
    requires Ordered(contract, bundles) && Includes(bundles, done) && Ordered(contract, done + items)
    ensures Ordered(contract, Absorb(bundles, items).value)
    decreases items
  {
    hide ValidBundle, BundleIdOf, AbsorbOne, Find, Ordered, Includes, Tells, TellsAt;
    if items != [] {
      var item, rest := items[0], items[1..];
      AbsorbOneTells(bundles, item);
      var next := AbsorbOne(bundles, item).value;
      assert AllValid(rest) by { assert forall k :: 0 <= k < |rest| ==> rest[k] == items[k + 1]; }
      assert done + items == done + [item] + rest;
      PrefixOrdered(contract, done + [item], rest);
      OneStep(contract, bundles, done, item);
      AbsorbKeepsOrder(contract, next, done + [item], rest);
    }
  }

  lemma {:induction false} OneStep(contract: Digest, bundles: seq<WitnessBundle>, done: seq<WitnessBundle>, item: WitnessBundle)
    requires AllValid(bundles) && ValidBundle(item) && AbsorbOne(bundles, item).Some?
    requires Ordered(contract, bundles) && Includes(bundles, done) && Ordered(contract, done + [item])
    ensures Ordered(contract, AbsorbOne(bundles, item).value) && Includes(AbsorbOne(bundles, item).value, done + [item])
  {
    hide ValidBundle, BundleIdOf, MergeBundle, Find, Ordered, Includes, BundleOf, Has, SameIds;
    var m := AbsorbOne(bundles, item).value;
    if Find(bundles, BundleIdOf(item)).Some? {
      AbsorbShared(contract, bundles, item);
      ShapeOrdered(contract, m, bundles);
      SharedIncludes(m, bundles, done, item, Find(bundles, BundleIdOf(item)).value);
    } else {
      AppendOrdered(contract, bundles, done, item);
      AppendIncludes(bundles, done, item);
    }
  }

  lemma {:induction false} AbsorbAllKeepsOrder(contract: Digest, base: Container, bundles: seq<WitnessBundle>, candidates: seq<Option<Container>>)
    requires AllValid(bundles) && DistinctBundles(bundles) && AllContainersValid(candidates) && AbsorbAll(base, bundles, candidates).Some?
    requires Ordered(contract, bundles)
    requires forall i :: 0 <= i < |candidates| && candidates[i].Some? ==> Ordered(contract, candidates[i].value.value.bundles)
    ensures Ordered(contract, AbsorbAll(base, bundles, candidates).value)
    decreases candidates
  {
    hide AllValid, DistinctBundles, Absorb, Ordered, Tells;
    if candidates != [] {
      var items, rest := candidates[0].value.value.bundles, candidates[1..];
      assert AllValid(items) && Ordered(contract, items);
      AbsorbTells(bundles, items);
      assert Includes(bundles, []);
      assert [] + items == items;
      AbsorbKeepsOrder(contract, bundles, [], items);
      assert AllContainersValid(rest) by { assert forall k :: 0 <= k < |rest| ==> rest[k] == candidates[k + 1]; }
      assert forall k :: 0 <= k < |rest| ==> rest[k] == candidates[k + 1];
      AbsorbAllKeepsOrder(contract, base, Absorb(bundles, items).value, rest);
    }
  }

  /** When every merged history has all parents disclosed before their children, so has the merge. */
  lemma {:induction false} MergeKeepsOrder(contract: Digest, containers: seq<Option<Container>>)
    requires AllContainersValid(containers) && Merging(containers).Some?
    requires forall i :: 0 <= i < |containers| && containers[i].Some? ==> Ordered(contract, containers[i].value.value.bundles)
    ensures Ordered(contract, Merging(containers).value.bundles)
  {
    hide AllValid, DistinctBundles, AbsorbAll, Ordered;
    var rest := containers[1..];
    assert forall k :: 0 <= k < |rest| ==> rest[k] == containers[k + 1];
    AbsorbAllKeepsOrder(contract, containers[0].value, containers[0].value.value.bundles, rest);
  }
}
