/** When merging succeeds, and in which orders. */
module MergeSuccess {
  import opened Agreement
  import opened Anchor
  import opened Bytes
  import opened Collections
  import opened Commitments
  import opened Merge
  import opened MergeHistories
  import opened Operations
  import opened Outputs
  import opened Symbols
  import opened Validator
  import opened Wrappers
  import Mpc

  ghost predicate DistinctKnown(known: seq<Known>) {
    forall i, j :: 0 <= i < j < |known| ==> IdOf(known[i]) != IdOf(known[j])
  }

  // ----- two bundles

  /** Without types 2, merging two bundles of one anchor works in both orders exactly
      when they know the same operations. */
  lemma {:induction false} BothWays(d: WitnessBundle, s: WitnessBundle)
    requires ValidBundle(d) && ValidBundle(s) && PlainBundle(d) && PlainBundle(s)
    ensures MergeBundle(d, s).Some? && MergeBundle(s, d).Some? <==>
            && d.pub == s.pub && d.mpc == s.mpc && d.dbc == s.dbc && |d.bundle.known| == |s.bundle.known|
            && forall op :: Has(d.bundle.known, op) <==> Has(s.bundle.known, op)
  {
    hide ValidBundle, MergeBundle, Has, Compatible, PlainBundle;
    BundlesMerge(d, s);
    BundlesMerge(s, d);
    PlainCompatible(d, s);
    PlainCompatible(s, d);
  }

  function KnownIds(known: seq<Known>): (ids: seq<Digest>)
    ensures |ids| == |known|
    ensures forall k :: 0 <= k < |known| ==> ids[k] == IdOf(known[k])
  {
    seq(|known|, k requires 0 <= k < |known| => IdOf(known[k]))
  }

  /** Without repeated operations, each source transition is matched by the only one of its id. */
  lemma {:induction false} OnlyMatch(dst: seq<Known>, s: Known, j: nat)
    requires DistinctKnown(dst) && j < |dst| && IdOf(dst[j]) == IdOf(s)
    ensures Matched(dst, PositionsById(dst), s) <==> Alike(dst[j].transition, s.transition)
  {
    hide IdOf, PositionsById, Alike;
    PositionsByIdMean(dst, IdOf(s));
  }

  /** Without repeated operations, as in every accepted history, the order does not matter. */
  lemma {:induction false} EitherWay(d: WitnessBundle, s: WitnessBundle)
    requires DistinctKnown(d.bundle.known) && DistinctKnown(s.bundle.known)
    ensures Compatible(d, s) <==> Compatible(s, d)
  {
    hide Compatible;
    if Compatible(d, s) { OneSide(d, s); }
    if Compatible(s, d) { OneSide(s, d); }
  }

  lemma {:induction false} SourceIds(d: WitnessBundle, s: WitnessBundle)
    requires DistinctKnown(d.bundle.known) && DistinctKnown(s.bundle.known) && Compatible(d, s)
    ensures forall k :: 0 <= k < |d.bundle.known| ==> IdOf(d.bundle.known[k]) in KnownIds(s.bundle.known)
  {
    hide IdOf, PositionsById, Alike;
    var dst, src := d.bundle.known, s.bundle.known;
    var a, b := KnownIds(src), KnownIds(dst);
    DistinctSize(a);
    DistinctSize(b);
    forall op | op in a ensures op in b {
      var k :| 0 <= k < |a| && a[k] == op;
      assert Matched(dst, PositionsById(dst), src[k]);
      PositionsByIdMean(dst, op);
      assert b[PositionsById(dst)[op]] == op;
    }
    SubsetSize(Elements(a), Elements(b));
    forall k | 0 <= k < |dst| ensures IdOf(dst[k]) in a {
      assert b[k] in Elements(b);
    }
  }

  lemma {:induction false} OneSide(d: WitnessBundle, s: WitnessBundle)
    requires DistinctKnown(d.bundle.known) && DistinctKnown(s.bundle.known) && Compatible(d, s)
    ensures Compatible(s, d)
  {
    hide IdOf, PositionsById, ConcealedEntries, Matched;
    var dst, src := d.bundle.known, s.bundle.known;
    SourceIds(d, s);
    forall k | 0 <= k < |dst| ensures Matched(src, PositionsById(src), dst[k]) {
      var j :| 0 <= j < |src| && KnownIds(src)[j] == IdOf(dst[k]);
      assert Matched(dst, PositionsById(dst), src[j]);
      OnlyMatch(dst, src[j], k);
      OnlyMatch(src, dst[k], j);
    }
  }

  // ----- a list of bundles

  /** What comes later under an id can be merged into what came first under it. */
  ghost predicate AllCompatible(all: seq<WitnessBundle>) {
    forall p, q :: 0 <= p < q < |all| && IsFirst(all, p) && BundleIdOf(all[p]) == BundleIdOf(all[q]) ==> Compatible(all[p], all[q])
  }

  ghost predicate IsFirst(all: seq<WitnessBundle>, p: nat) {
    p < |all| && forall r :: 0 <= r < p ==> BundleIdOf(all[r]) != BundleIdOf(all[p])
  }

  lemma {:induction false} SamePositions(a: seq<Known>, b: seq<Known>)
    requires SameIds(a, b)
    ensures PositionsById(a) == PositionsById(b)
  {
    hide IdOf, ConcealedEntries;
    if a != [] {
      var n := |a| - 1;
      assert Redisclosed(a[n], b[n]);
      assert SameIds(a[..n], b[..n]) by {
        forall k | 0 <= k < n ensures Redisclosed(a[..n][k], b[..n][k]) { assert Redisclosed(a[k], b[k]); }
      }
      SamePositions(a[..n], b[..n]);
    }
  }

  /** What was merged in does not change what can be merged in. */
  lemma {:induction false} SameDestination(m: WitnessBundle, d: WitnessBundle, s: WitnessBundle)
    requires m.pub == d.pub && m.mpc == d.mpc && m.dbc == d.dbc && SameIds(m.bundle.known, d.bundle.known)
    ensures Compatible(m, s) <==> Compatible(d, s)
  {
    hide PositionsById, Matched, Redisclosed;
    SamePositions(m.bundle.known, d.bundle.known);
    forall k | 0 <= k < |s.bundle.known|
      ensures Matched(m.bundle.known, PositionsById(m.bundle.known), s.bundle.known[k]) <==>
              Matched(d.bundle.known, PositionsById(d.bundle.known), s.bundle.known[k])
    {
      StillMatched(m.bundle.known, d.bundle.known, PositionsById(d.bundle.known), s.bundle.known[k]);
    }
  }

  /** One bundle in place of two: `m` stands where `bundles[p]` stood, and the bundle
      `item` of the same id, right behind the list, is gone. */
  ghost predicate Folded(bundles: seq<WitnessBundle>, item: WitnessBundle, p: nat, m: WitnessBundle) {
    && p < |bundles| && DistinctBundles(bundles)
    && BundleIdOf(bundles[p]) == BundleIdOf(item) == BundleIdOf(m)
    && m.pub == bundles[p].pub && m.mpc == bundles[p].mpc && m.dbc == bundles[p].dbc
    && SameIds(m.bundle.known, bundles[p].bundle.known)
  }

  /** Where a position of the folded list came from. */
  function Lift(n: nat, x: nat): nat {
    if x < n then x else x + 1
  }

  lemma {:induction false} LiftMeans(bundles: seq<WitnessBundle>, item: WitnessBundle, rest: seq<WitnessBundle>, p: nat, m: WitnessBundle, x: nat)
    requires Folded(bundles, item, p, m) && x < |bundles + rest|
    ensures var all, fewer := bundles + [item] + rest, bundles[p := m] + rest;
            && Lift(|bundles|, x) < |all| && BundleIdOf(fewer[x]) == BundleIdOf(all[Lift(|bundles|, x)])
            && (x != p ==> fewer[x] == all[Lift(|bundles|, x)]) && (x == p ==> fewer[x] == m && all[p] == bundles[p])
  {
    hide BundleIdOf;
  }

  /** The first position of an id stays the first. */
  lemma {:induction false} LiftFirst(bundles: seq<WitnessBundle>, item: WitnessBundle, rest: seq<WitnessBundle>, p: nat, m: WitnessBundle, x: nat)
    requires Folded(bundles, item, p, m) && x < |bundles + rest|
    ensures IsFirst(bundles[p := m] + rest, x) <==> IsFirst(bundles + [item] + rest, Lift(|bundles|, x))
  {
    hide BundleIdOf;
    var all, fewer, n := bundles + [item] + rest, bundles[p := m] + rest, |bundles|;
    LiftMeans(bundles, item, rest, p, m, x);
    LiftMeans(bundles, item, rest, p, m, p);
    if IsFirst(fewer, x) {
      forall r | 0 <= r < Lift(n, x) ensures BundleIdOf(all[r]) != BundleIdOf(all[Lift(n, x)]) {
        if r == n {
          assert all[n] == item && p < x;
        } else {
          LiftMeans(bundles, item, rest, p, m, if r < n then r else r - 1);
        }
      }
    }
    if IsFirst(all, Lift(n, x)) {
      forall r | 0 <= r < x ensures BundleIdOf(fewer[r]) != BundleIdOf(fewer[x]) {
        LiftMeans(bundles, item, rest, p, m, r);
        assert Lift(n, r) < Lift(n, x);
      }
    }
  }

  lemma {:induction false} FoldCompatible(bundles: seq<WitnessBundle>, item: WitnessBundle, rest: seq<WitnessBundle>, p: nat, m: WitnessBundle)
    requires Folded(bundles, item, p, m)
    ensures AllCompatible(bundles + [item] + rest) <==> Compatible(bundles[p], item) && AllCompatible(bundles[p := m] + rest)
  {
    hide BundleIdOf, Compatible, IsFirst, SameIds;
    var all, fewer, n := bundles + [item] + rest, bundles[p := m] + rest, |bundles|;
    assert all[n] == item && all[p] == bundles[p];
    assert IsFirst(all, p) by { FirstOfDistinct(bundles, [item] + rest, p); assert all == bundles + ([item] + rest); }
    if AllCompatible(all) {
      forall x, y | 0 <= x < y < |fewer| && IsFirst(fewer, x) && BundleIdOf(fewer[x]) == BundleIdOf(fewer[y])
        ensures Compatible(fewer[x], fewer[y])
      {
        PairLifts(bundles, item, rest, p, m, x, y);
      }
    }
    if Compatible(bundles[p], item) && AllCompatible(fewer) {
      forall x, y | 0 <= x < y < |all| && IsFirst(all, x) && BundleIdOf(all[x]) == BundleIdOf(all[y])
        ensures Compatible(all[x], all[y])
      {
        if x == n {
          NotFirst(all, p, n);
        } else if y == n {
          SameFirst(all, x, p);
        } else {
          PairLifts(bundles, item, rest, p, m, if x < n then x else x - 1, if y < n then y else y - 1);
        }
      }
    }
  }

  lemma {:induction false} FirstOfDistinct(a: seq<WitnessBundle>, b: seq<WitnessBundle>, p: nat)
    requires DistinctBundles(a) && p < |a|
    ensures IsFirst(a + b, p)
  {
    hide BundleIdOf;
  }

  lemma {:induction false} NotFirst(all: seq<WitnessBundle>, p: nat, x: nat)
    requires p < x < |all| && BundleIdOf(all[p]) == BundleIdOf(all[x])
    ensures !IsFirst(all, x)
  {
    hide BundleIdOf;
  }

  lemma {:induction false} SameFirst(all: seq<WitnessBundle>, x: nat, p: nat)
    requires IsFirst(all, x) && IsFirst(all, p) && BundleIdOf(all[p]) == BundleIdOf(all[x])
    ensures x == p
  {
    hide BundleIdOf;
  }

  lemma {:induction false} PairLifts(bundles: seq<WitnessBundle>, item: WitnessBundle, rest: seq<WitnessBundle>, p: nat, m: WitnessBundle, x: nat, y: nat)
    requires Folded(bundles, item, p, m) && x < y < |bundles + rest|
    ensures var all, fewer, n := bundles + [item] + rest, bundles[p := m] + rest, |bundles|;
            && Lift(n, x) < Lift(n, y) < |all|
            && (IsFirst(fewer, x) <==> IsFirst(all, Lift(n, x)))
            && (BundleIdOf(fewer[x]) == BundleIdOf(fewer[y]) <==> BundleIdOf(all[Lift(n, x)]) == BundleIdOf(all[Lift(n, y)]))
            && (IsFirst(fewer, x) && BundleIdOf(fewer[x]) == BundleIdOf(fewer[y]) ==>
                (Compatible(fewer[x], fewer[y]) <==> Compatible(all[Lift(n, x)], all[Lift(n, y)])))
  {
    hide BundleIdOf, Compatible, IsFirst, SameIds;
    var all, fewer, n := bundles + [item] + rest, bundles[p := m] + rest, |bundles|;
    LiftMeans(bundles, item, rest, p, m, x);
    LiftMeans(bundles, item, rest, p, m, y);
    LiftFirst(bundles, item, rest, p, m, x);
    SameDestination(m, bundles[p], fewer[y]);
    if y == p { OthersDiffer(bundles, rest, p, m, x); }
  }

  lemma {:induction false} OthersDiffer(bundles: seq<WitnessBundle>, rest: seq<WitnessBundle>, p: nat, m: WitnessBundle, x: nat)
    requires DistinctBundles(bundles) && x < p < |bundles| && BundleIdOf(m) == BundleIdOf(bundles[p])
    ensures var fewer := bundles[p := m] + rest; BundleIdOf(fewer[x]) != BundleIdOf(fewer[p])
  {
    hide BundleIdOf;
  }

  /** The bundle ids of a list. */
  function IdSet(all: seq<WitnessBundle>): set<Digest> {
    Elements(BundleIds(all))
  }

  lemma {:induction false} IdSetFolded(bundles: seq<WitnessBundle>, item: WitnessBundle, rest: seq<WitnessBundle>, p: nat, m: WitnessBundle)
    requires Folded(bundles, item, p, m)
    ensures IdSet(bundles + [item] + rest) == IdSet(bundles[p := m] + rest)
  {
    hide BundleIdOf;
    var all, fewer, n := bundles + [item] + rest, bundles[p := m] + rest, |bundles|;
    forall id ensures id in BundleIds(all) <==> id in BundleIds(fewer) {
      if id in BundleIds(all) {
        var x :| 0 <= x < |all| && BundleIds(all)[x] == id;
        var y := if x < n then x else if x == n then p else x - 1;
        LiftMeans(bundles, item, rest, p, m, y);
        assert BundleIds(fewer)[y] == id;
      }
      if id in BundleIds(fewer) {
        var y :| 0 <= y < |fewer| && BundleIds(fewer)[y] == id;
        LiftMeans(bundles, item, rest, p, m, y);
        assert BundleIds(all)[Lift(n, y)] == id;
      }
    }
  }

  /** A list of pairwise different bundles has as many ids, and a longer list no fewer. */
  lemma {:induction false} IdSetSize(a: seq<WitnessBundle>, b: seq<WitnessBundle>)
    requires DistinctBundles(a)
    ensures |IdSet(a + b)| >= |a|
    ensures b == [] ==> |IdSet(a + b)| == |a|
  {
    hide BundleIdOf;
    DistinctSize(BundleIds(a));
    assert BundleIds(a + b)[..|a|] == BundleIds(a);
    assert IdSet(a) <= IdSet(a + b) by {
      forall id | id in IdSet(a) ensures id in IdSet(a + b) {
        var x :| 0 <= x < |a| && BundleIds(a)[x] == id;
        assert BundleIds(a + b)[x] == id;
      }
    }
    assert IdSet(a + b) == IdSet(a) + (IdSet(a + b) - IdSet(a));
    assert |IdSet(a + b)| == |IdSet(a)| + |IdSet(a + b) - IdSet(a)|;
    if b == [] {
      assert a + b == a;
    }
  }

  lemma {:induction false} ValidCommits(wb: WitnessBundle)
    requires ValidBundle(wb)
    ensures BundleOf(wb.bundle).Ok?
  {
  }

  /** Absorbing into a list of pairwise different bundles succeeds exactly when what comes
      later under an id can be merged into what came first, and the ids can be counted in 32 bits. */
  lemma {:induction false} AbsorbSucceeds(bundles: seq<WitnessBundle>, items: seq<WitnessBundle>)
    requires AllValid(bundles) && AllValid(items) && DistinctBundles(bundles) && |bundles| < U32
    ensures Absorb(bundles, items).Some? <==> AllCompatible(bundles + items) && |IdSet(bundles + items)| < U32
    decreases items, 1
  {
    hide BundleIdOf, ValidBundle, AbsorbOne, Compatible, Find;
    if items == [] {
      assert bundles + items == bundles;
      IdSetSize(bundles, []);
    } else {
      var item, rest := items[0], items[1..];
      assert ValidBundle(item);
      assert AllValid(rest) by { assert forall k :: 0 <= k < |rest| ==> rest[k] == items[k + 1]; }
      FindMeans(bundles, BundleIdOf(item));
      assert bundles + items == bundles + [item] + rest;
      if Find(bundles, BundleIdOf(item)).Some? {
        AbsorbFolds(bundles, items, Find(bundles, BundleIdOf(item)).value);
      } else {
        AbsorbAppends(bundles, items);
      }
    }
  }

  lemma {:induction false} AbsorbFolds(bundles: seq<WitnessBundle>, items: seq<WitnessBundle>, p: nat)
    requires AllValid(bundles) && AllValid(items) && DistinctBundles(bundles) && |bundles| < U32 && items != []
    requires Find(bundles, BundleIdOf(items[0])) == Some(p) && BundleIdOf(bundles[p]) == BundleIdOf(items[0])
    requires AllValid(items[1..])
    ensures var all := bundles + [items[0]] + items[1..];
            Absorb(bundles, items).Some? <==> AllCompatible(all) && |IdSet(all)| < U32
    decreases items, 0
  {
    hide BundleIdOf, ValidBundle, Compatible, Find, MergeBundle, AllCompatible, IdSet, BundleOf, SameIds, Discloses;
    var item, rest := items[0], items[1..];
    assert ValidBundle(item) && ValidBundle(bundles[p]);
    ValidCommits(item);
    BundlesMerge(bundles[p], item);
    if MergeBundle(bundles[p], item).Some? {
      var m := MergeBundle(bundles[p], item).value;
      var next := bundles[p := m];
      assert Folded(bundles, item, p, m);
      FoldCompatible(bundles, item, rest, p, m);
      IdSetFolded(bundles, item, rest, p, m);
      AbsorbSucceeds(next, rest);
    } else {
      Unmergeable(bundles, item, rest, p);
    }
  }

  lemma {:induction false} Unmergeable(bundles: seq<WitnessBundle>, item: WitnessBundle, rest: seq<WitnessBundle>, p: nat)
    requires DistinctBundles(bundles) && p < |bundles| && BundleIdOf(bundles[p]) == BundleIdOf(item) && !Compatible(bundles[p], item)
    ensures !AllCompatible(bundles + [item] + rest)
  {
    hide BundleIdOf, Compatible, IsFirst;
    var all := bundles + [item] + rest;
    FirstOfDistinct(bundles, [item] + rest, p);
    assert all == bundles + ([item] + rest);
    assert all[p] == bundles[p] && all[|bundles|] == item;
  }

  lemma {:induction false} AbsorbAppends(bundles: seq<WitnessBundle>, items: seq<WitnessBundle>)
    requires AllValid(bundles) && AllValid(items) && DistinctBundles(bundles) && |bundles| < U32 && items != []
    requires Find(bundles, BundleIdOf(items[0])) == None && forall p :: 0 <= p < |bundles| ==> BundleIdOf(bundles[p]) != BundleIdOf(items[0])
    requires AllValid(items[1..])
    ensures var all := bundles + [items[0]] + items[1..];
            Absorb(bundles, items).Some? <==> AllCompatible(all) && |IdSet(all)| < U32
    decreases items, 0
  {
    hide BundleIdOf, ValidBundle, Compatible, Find, AllCompatible, IdSet, BundleOf;
    var item, rest := items[0], items[1..];
    assert ValidBundle(item);
    ValidCommits(item);
    var next := bundles + [item];
    assert DistinctBundles(next);
    if |bundles| >= U32 - 1 {
      IdSetSize(next, rest);
    } else {
      AbsorbSucceeds(next, rest);
    }
  }

  // ----- whole histories

  /** The bundles of all histories, one after the other. */
  function AllBundles(candidates: seq<Option<Container>>): seq<WitnessBundle> {
    if candidates == [] then []
    else (if candidates[0].Some? then candidates[0].value.value.bundles else []) + AllBundles(candidates[1..])
  }

  ghost predicate AllJoin(base: Container, candidates: seq<Option<Container>>) {
    forall i :: 0 <= i < |candidates| ==> Joins(base, candidates[i])
  }

  lemma {:induction false} AbsorbConcat(bundles: seq<WitnessBundle>, a: seq<WitnessBundle>, b: seq<WitnessBundle>)
    ensures Absorb(bundles, a + b) == if Absorb(bundles, a).None? then None else Absorb(Absorb(bundles, a).value, b)
    decreases a
  {
    hide AbsorbOne;
    if a == [] {
      assert a + b == b;
    } else {
      assert (a + b)[1..] == a[1..] + b;
      var next := AbsorbOne(bundles, a[0]);
      if next.Some? {
        AbsorbConcat(next.value, a[1..], b);
      }
    }
  }

  lemma {:induction false} AbsorbAllIs(base: Container, bundles: seq<WitnessBundle>, candidates: seq<Option<Container>>)
    ensures AbsorbAll(base, bundles, candidates).Some? <==> AllJoin(base, candidates) && Absorb(bundles, AllBundles(candidates)).Some?
    decreases candidates
  {
    hide Joins, Absorb;
    if candidates == [] {
      NothingToAbsorb(bundles);
    } else {
      assert candidates == [candidates[0]] + candidates[1..];
      assert AllJoin(base, candidates) <==> Joins(base, candidates[0]) && AllJoin(base, candidates[1..]);
      if Joins(base, candidates[0]) {
        assert candidates[0].Some? by { JoinsIsThere(base, candidates[0]); }
        var items := candidates[0].value.value.bundles;
        AbsorbConcat(bundles, items, AllBundles(candidates[1..]));
        if Absorb(bundles, items).Some? {
          AbsorbAllIs(base, Absorb(bundles, items).value, candidates[1..]);
        }
      }
    }
  }

  lemma {:induction false} NothingToAbsorb(bundles: seq<WitnessBundle>)
    ensures Absorb(bundles, []) == Some(bundles)
  {
  }

  lemma {:induction false} JoinsIsThere(base: Container, candidate: Option<Container>)
    ensures Joins(base, candidate) ==> candidate.Some?
  {
  }

  lemma {:induction false} AllBundlesValid(candidates: seq<Option<Container>>)
    requires AllContainersValid(candidates)
    ensures AllValid(AllBundles(candidates))
  {
    hide ValidBundle;
    if candidates != [] {
      var rest := candidates[1..];
      assert AllContainersValid(rest) by { assert forall k :: 0 <= k < |rest| ==> rest[k] == candidates[k + 1]; }
      AllBundlesValid(rest);
    }
  }

  /** Exactly when any number of histories merge: all are of the contract and genesis of the
      first, the first repeats no bundle, whatever comes later under a bundle id can be merged
      into what came first, and the bundles can be counted in 32 bits. */
  lemma {:induction false} MergeSucceeds(containers: seq<Option<Container>>)
    requires AllContainersValid(containers) && containers != []
    requires containers[0].Some? ==> |containers[0].value.value.bundles| < U32
    ensures Merging(containers).Some? <==>
            && containers[0].Some? && containers[0].value.structural
            && DistinctBundles(containers[0].value.value.bundles)
            && AllJoin(containers[0].value, containers[1..])
            && AllCompatible(AllBundles(containers)) && |IdSet(AllBundles(containers))| < U32
  {
    hide ValidBundle, BundleOf, Compatible, DistinctBundles, AllCompatible, Joins, IdSet, AbsorbAll;
    if containers[0].Some? {
      var base, rest := containers[0].value, containers[1..];
      var x := base.value.bundles;
      assert AllValid(x);
      assert AllContainersValid(rest) by { assert forall k :: 0 <= k < |rest| ==> rest[k] == containers[k + 1]; }
      AllBundlesValid(rest);
      assert forall p :: 0 <= p < |x| ==> BundleOf(x[p].bundle).Ok? by {
        forall p | 0 <= p < |x| ensures BundleOf(x[p].bundle).Ok? { ValidCommits(x[p]); }
      }
      AbsorbAllIs(base, x, rest);
      if DistinctBundles(x) {
        AbsorbSucceeds(x, AllBundles(rest));
      }
    }
  }

  /** Bundles the two lists share can be merged, the first list being the destination. */
  ghost predicate SharedCompatible(bundles: seq<WitnessBundle>, items: seq<WitnessBundle>) {
    forall p, q :: 0 <= p < |bundles| && 0 <= q < |items| && BundleIdOf(bundles[p]) == BundleIdOf(items[q]) ==> Compatible(bundles[p], items[q])
  }

  lemma {:induction false} OnEitherSide(x: seq<WitnessBundle>, y: seq<WitnessBundle>, p: nat, q: nat)
    requires DistinctBundles(x) && DistinctBundles(y) && p < q < |x + y| && BundleIdOf((x + y)[p]) == BundleIdOf((x + y)[q])
    ensures p < |x| <= q
  {
    hide BundleIdOf;
  }

  lemma {:induction false} SharedIsAll(x: seq<WitnessBundle>, y: seq<WitnessBundle>)
    requires DistinctBundles(x) && DistinctBundles(y)
    ensures AllCompatible(x + y) <==> SharedCompatible(x, y)
  {
    hide BundleIdOf, Compatible;
    var all := x + y;
    if AllCompatible(all) {
      forall p, q | 0 <= p < |x| && 0 <= q < |y| && BundleIdOf(x[p]) == BundleIdOf(y[q]) ensures Compatible(x[p], y[q]) {
        FirstOfDistinct(x, y, p);
        assert all[p] == x[p] && all[|x| + q] == y[q];
      }
    }
    if SharedCompatible(x, y) {
      forall p, q | 0 <= p < q < |all| && IsFirst(all, p) && BundleIdOf(all[p]) == BundleIdOf(all[q]) ensures Compatible(all[p], all[q]) {
        OnEitherSide(x, y, p, q);
        assert all[p] == x[p] && all[q] == y[q - |x|];
      }
    }
  }

  lemma {:induction false} IdSetTurns(x: seq<WitnessBundle>, y: seq<WitnessBundle>)
    ensures IdSet(x + y) == IdSet(y + x)
  {
    hide BundleIdOf;
    assert BundleIds(x + y) == BundleIds(x) + BundleIds(y) && BundleIds(y + x) == BundleIds(y) + BundleIds(x);
  }

  lemma {:induction false} PairBundles(a: Container, b: Container)
    ensures AllBundles([Some(a), Some(b)]) == a.value.bundles + b.value.bundles
    ensures AllJoin(a, [Some(a), Some(b)][1..]) <==> Joins(a, Some(b))
  {
    hide Joins;
    var p := [Some(a), Some(b)];
    assert p[1..] == [Some(b)] && [Some(b)][1..] == [];
    assert AllBundles([Some(b)]) == b.value.bundles + [];
    assert [Some(b)][0] == Some(b);
  }

  /** The pair of histories merges in this order. */
  lemma {:induction false} PairSucceeds(a: Container, b: Container)
    requires AllValid(a.value.bundles) && AllValid(b.value.bundles) && |a.value.bundles| < U32
    ensures Merging([Some(a), Some(b)]).Some? <==>
            && a.structural && DistinctBundles(a.value.bundles) && Joins(a, Some(b))
            && AllCompatible(a.value.bundles + b.value.bundles) && |IdSet(a.value.bundles + b.value.bundles)| < U32
  {
    hide AllValid, DistinctBundles, AllCompatible, Joins, IdSet, Merging, AllBundles, AllJoin;
    var p := [Some(a), Some(b)];
    PairBundles(a, b);
    assert p[0] == Some(a);
    MergeSucceeds(p);
  }

  /** Two histories merge in both orders exactly when neither repeats a bundle, both are of
      one contract and genesis, and the bundles they share can be merged both ways. */
  lemma {:induction false} MergeBothWays(a: Container, b: Container)
    requires AllValid(a.value.bundles) && AllValid(b.value.bundles) && |a.value.bundles| < U32 && |b.value.bundles| < U32
    ensures Merging([Some(a), Some(b)]).Some? && Merging([Some(b), Some(a)]).Some? <==>
            && a.structural && DistinctBundles(a.value.bundles) && DistinctBundles(b.value.bundles) && Joins(a, Some(b))
            && SharedCompatible(a.value.bundles, b.value.bundles) && SharedCompatible(b.value.bundles, a.value.bundles)
            && |IdSet(a.value.bundles + b.value.bundles)| < U32
  {
    hide AllValid, DistinctBundles, AllCompatible, SharedCompatible, IdSet, Merging;
    var x, y := a.value.bundles, b.value.bundles;
    PairSucceeds(a, b);
    PairSucceeds(b, a);
    IdSetTurns(x, y);
    if DistinctBundles(x) && DistinctBundles(y) {
      SharedIsAll(x, y);
      SharedIsAll(y, x);
    }
  }

  /** A history that repeats neither a bundle nor an operation within one, as every accepted one. */
  ghost predicate RegularHistory(c: Container) {
    && c.structural && AllValid(c.value.bundles) && DistinctBundles(c.value.bundles) && |c.value.bundles| < U32
    && forall p :: 0 <= p < |c.value.bundles| ==> DistinctKnown(c.value.bundles[p].bundle.known)
  }

  /** For histories without repetitions the order of merging never decides. */
  lemma {:induction false} MergeSymmetric(a: Container, b: Container)
    requires RegularHistory(a) && RegularHistory(b)
    ensures Merging([Some(a), Some(b)]).Some? <==> Merging([Some(b), Some(a)]).Some?
  {
    hide ValidBundle, BundleIdOf, Compatible, DistinctKnown, DistinctBundles, Merging, AllCompatible, IdSet;
    PairSucceeds(a, b);
    PairSucceeds(b, a);
    var x, y := a.value.bundles, b.value.bundles;
    IdSetTurns(x, y);
    SharedIsAll(x, y);
    SharedIsAll(y, x);
    forall p, q | 0 <= p < |x| && 0 <= q < |y| ensures Compatible(x[p], y[q]) <==> Compatible(y[q], x[p]) {
      EitherWay(x[p], y[q]);
    }
  }

  // ----- with repetitions, the order decides

  /** A transition that spends output `n` of the zero operation and creates nothing. */
  function Spending(n: nat): Transition {
    Transition(0, 0, ZERO, 10000, [], [], [InputRef(ZERO, 4000, n)], [], None)
  }

  /** A bundle that commits to the first two such transitions, and discloses the given ones. */
  function Disclosing(a: nat, b: nat): WitnessBundle {
    WitnessBundle(Named(ZERO), Mpc.Proof(0, 0, []), Opret,
                  Bundle.Bundle([Commit(InputRef(ZERO, 4000, 0), TransitionId(Spending(0))), Commit(InputRef(ZERO, 4000, 1), TransitionId(Spending(1)))],
                         [Known(TransitionId(Spending(a)), Spending(a)), Known(TransitionId(Spending(b)), Spending(b))]))
  }

  lemma {:induction false} SpendingCanonical(n: nat)
    requires n < 2
    ensures CanonicalTransition(Spending(n))
  {
  }

  lemma {:induction false} DisclosingValid(a: nat, b: nat)
    requires a < 2 && b < 2
    ensures ValidBundle(Disclosing(a, b))
  {
    hide TransitionId;
    var wb := Disclosing(a, b);
    SpendingCanonical(a);
    SpendingCanonical(b);
    assert InputOps(wb.bundle.inputMap) == {TransitionId(Spending(0)), TransitionId(Spending(1))} by {
      assert wb.bundle.inputMap[0].op == TransitionId(Spending(0)) && wb.bundle.inputMap[1].op == TransitionId(Spending(1));
    }
    KnownOk(wb.bundle.known, InputOps(wb.bundle.inputMap));
  }

  lemma {:induction false} SpendingDiffer()
    ensures TransitionId(Spending(0)) != TransitionId(Spending(1))
  {
    hide TransitionId;
    SpendingCanonical(0);
    SpendingCanonical(1);
    TransitionIdBinds(Spending(0), Spending(1));
    assert Public(Spending(0)).inputs[0] != Public(Spending(1)).inputs[0];
  }

  lemma {:induction false} DisclosingKnows(a: nat, b: nat)
    requires a < 2 && b < 2
    ensures PlainBundle(Disclosing(a, b))
    ensures forall op :: Has(Disclosing(a, b).bundle.known, op) <==> op == TransitionId(Spending(a)) || op == TransitionId(Spending(b))
  {
    hide TransitionId;
    var known := Disclosing(a, b).bundle.known;
    assert IdOf(known[0]) == TransitionId(Spending(a)) && IdOf(known[1]) == TransitionId(Spending(b));
  }

  lemma {:induction false} DisclosingAnchor(a: nat, b: nat)
    ensures var wb := Disclosing(a, b);
            && wb.pub == Named(ZERO) && wb.mpc == Mpc.Proof(0, 0, []) && wb.dbc == Opret && |wb.bundle.known| == 2
            && BundleIdOf(wb) == BundleIdOf(Disclosing(0, 0))
  {
    hide TransitionId, BundleId;
  }

  /** A bundle may disclose one operation twice. Such a bundle can be merged into one
      that discloses both operations, but not the other way around. */
  lemma {:induction false} RepeatedOperations()
    ensures ValidBundle(Disclosing(0, 1)) && ValidBundle(Disclosing(0, 0)) && BundleIdOf(Disclosing(0, 1)) == BundleIdOf(Disclosing(0, 0))
    ensures MergeBundle(Disclosing(0, 1), Disclosing(0, 0)).Some?
    ensures MergeBundle(Disclosing(0, 0), Disclosing(0, 1)).None?
  {
    hide TransitionId, MergeBundle, ValidBundle, Disclosing, Spending, PlainBundle, Compatible, BundleIdOf, Has;
    var d, s := Disclosing(0, 1), Disclosing(0, 0);
    DisclosingValid(0, 1);
    DisclosingValid(0, 0);
    DisclosingAnchor(0, 1);
    DisclosingAnchor(0, 0);
    SpendingDiffer();
    DisclosingKnows(0, 1);
    DisclosingKnows(0, 0);
    BundlesMerge(d, s);
    BundlesMerge(s, d);
    PlainCompatible(d, s);
    PlainCompatible(s, d);
    assert Has(d.bundle.known, TransitionId(Spending(1))) && !Has(s.bundle.known, TransitionId(Spending(1)));
  }

  /** A repeated bundle is refused in the base but taken in a candidate. */
  lemma {:induction false} RepeatedBundles(a: Container, b: Container, x: WitnessBundle)
    requires a.structural && b.structural && Joins(a, Some(b)) && ValidBundle(x) && PlainBundle(x)
    requires a.value.bundles == [x] && b.value.bundles == [x, x]
    ensures Merging([Some(a), Some(b)]).Some? && Merging([Some(b), Some(a)]).None?
  {
    hide ValidBundle, BundleIdOf, PlainBundle, Compatible, Merging, Joins;
    PlainCompatible(x, x);
    PairSucceeds(a, b);
    PairSucceeds(b, a);
    assert !DistinctBundles([x, x]) by { assert [x, x][0] == [x, x][1]; }
    DistinctSize([BundleIdOf(x)]);
    assert IdSet([x] + [x, x]) <= Elements([BundleIdOf(x)]);
    SubsetSize(IdSet([x] + [x, x]), Elements([BundleIdOf(x)]));
  }

  /** Two bundles of one id that disclose one operation id, and cannot be merged in either
      order: in the second, the 62 assignments of the operation are replaced by the single one
      of type 2 that has their root. */
  lemma {:induction false} MaskedBundle(d: WitnessBundle)
    requires ValidBundle(d) && |d.bundle.known| == 1 && |Records(d.bundle.known[0].transition.assignments)| % U16 == 62
    ensures var t := d.bundle.known[0].transition;
            var u := t.(assignments := Masking(t.assignments));
            var s := d.(bundle := d.bundle.(known := [d.bundle.known[0].(transition := u)]));
            && ValidBundle(s) && BundleIdOf(s) == BundleIdOf(d) && IdOf(s.bundle.known[0]) == IdOf(d.bundle.known[0])
            && MergeBundle(d, s).None? && MergeBundle(s, d).None?
  {
    hide BundleId, TransitionId, Records, CanonicalTransition, KnownError, PositionsById, MergeBundle;
    var k := d.bundle.known[0];
    var t := k.transition;
    var u := t.(assignments := Masking(t.assignments));
    ValidKnown(d);
    OneForMany(t);
    var s := d.(bundle := d.bundle.(known := [k.(transition := u)]));
    var ops := InputOps(d.bundle.inputMap);
    KnownOk(d.bundle.known, ops);
    KnownOk(s.bundle.known, ops);
    BundlesMerge(d, s);
    BundlesMerge(s, d);
    NotAlike(d, s);
    NotAlike(s, d);
  }

  lemma {:induction false} NotAlike(d: WitnessBundle, s: WitnessBundle)
    requires |d.bundle.known| == |s.bundle.known| == 1 && IdOf(d.bundle.known[0]) == IdOf(s.bundle.known[0])
    requires Public(d.bundle.known[0].transition) != Public(s.bundle.known[0].transition)
    requires SameFrame(d.bundle.known[0].transition, s.bundle.known[0].transition)
    requires d.bundle.known[0].transition.globals == s.bundle.known[0].transition.globals
    ensures !Compatible(d, s)
  {
    hide IdOf, PositionsById, ConcealedEntries;
    PositionsByIdMean(d.bundle.known, IdOf(s.bundle.known[0]));
  }

  /** There are such histories: one lists a bundle once, the other twice. */
  lemma {:induction false} OnceAndTwice() returns (a: Container, b: Container)
    ensures AllValid(a.value.bundles) && AllValid(b.value.bundles)
    ensures Merging([Some(a), Some(b)]).Some? && Merging([Some(b), Some(a)]).None?
  {
    hide ValidBundle, PlainBundle, Merging, Disclosing;
    var x := Disclosing(0, 1);
    var g := Genesis.Genesis(0, ZERO, 0, [], 0, 0, [], [], []);
    a := Container(true, ZERO, ZERO, [], Consignment(g, false, [], [x]));
    b := Container(true, ZERO, ZERO, [], Consignment(g, false, [], [x, x]));
    DisclosingValid(0, 1);
    DisclosingKnows(0, 1);
    RepeatedBundles(a, b, x);
  }

  /** There are such bundles. */
  lemma {:induction false} MaskedPair() returns (d: WitnessBundle, s: WitnessBundle)
    ensures ValidBundle(d) && ValidBundle(s) && BundleIdOf(d) == BundleIdOf(s) && |d.bundle.known| == |s.bundle.known| == 1
    ensures IdOf(d.bundle.known[0]) == IdOf(s.bundle.known[0]) && MergeBundle(d, s).None? && MergeBundle(s, d).None?
  {
    hide Records, TransitionId, BundleId, MergeBundle, MaskAssignment;
    var t := ManyAssignments();
    var k := Known(TransitionId(t), t);
    d := WitnessBundle(Named(ZERO), Mpc.Proof(0, 0, []), Opret, Bundle.Bundle([Commit(t.inputs[0], TransitionId(t))], [k]));
    assert InputOps(d.bundle.inputMap) == {TransitionId(t)} by {
      assert d.bundle.inputMap[0].op == TransitionId(t);
    }
    assert d.bundle.known[1..] == [];
    assert KnownError([k], {TransitionId(t)}) == KnownError([], {TransitionId(t)}) == None;
    assert ValidBundle(d);
    hide ValidBundle;
    MaskedBundle(d);
    s := d.(bundle := d.bundle.(known := [k.(transition := t.(assignments := Masking(t.assignments)))]));
  }
}
