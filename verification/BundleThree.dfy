/** For bundles over three serial sets: exactly when a batch is "the maximum evaluations". */
module BundleThree {
  import opened Sequences
  import opened MappedQueuesModel
  import opened EvaluationBundleModel
  import opened BundleRuns
  import opened BundleDrain
  import opened BundleBest
  import opened BundleExchange

  /** No feasible batch is larger than the one produced. */
  ghost predicate IsMaximum(q: EvalQueues, b: int)
    requires GoodQueues(q)
  {
    forall other | Feasible(q, b, other) :: BatchSum(other, Each()) <= BatchSum(NextBatch(q, b).batch, Each())
  }

  // ---------------------------------------------------------------- a device that all sets share

  lemma {:induction false} LoadWithinSum(batch: Batch, s: Serial)
    ensures Load(batch, s) <= BatchSum(batch, Each())
    ensures (forall g | g in batch :: s in g.serials || g.evals == []) ==> Load(batch, s) == BatchSum(batch, Each())
  {
    if batch != [] {
      LoadWithinSum(batch[..|batch| - 1], s);
      assert batch[|batch| - 1] in batch;
    }
  }

  lemma NoneWaits(q: EvalQueues, b: int, r: Filling, other: Batch)
    requires Packs(q, b, r) && Feasible(q, b, other)
    requires forall k | k in Visible(q) :: Get(r.queues, k) == []
    ensures BatchSum(other, Each()) <= BatchSum(r.batch, Each())
  {
    forall k | k in Visible(q) && Each()(k) != 0 ensures Amount(other, k) <= Amount(r.batch, k) {
      assert k in q.state;
    }
    NoMoreOverall(q, b, r, other, Each());
  }

  /** If one device is in every visible set, no feasible batch is larger than the one produced. */
  lemma MaximumWithCommonDevice(q: EvalQueues, b: int, s: Serial)
    requires GoodQueues(q) && 0 < b && forall k | k in Visible(q) :: s in k
    ensures IsMaximum(q, b)
  {
    var r := NextBatch(q, b);
    NextBatchPacks(q, b);
    forall other | Feasible(q, b, other) ensures BatchSum(other, Each()) <= BatchSum(r.batch, Each()) {
      if k :| k in Visible(q) && Get(r.queues, k) != [] {
        assert HasFullDevice(b, r.batch, k);
        var t :| t in k && Load(r.batch, t) == b;
        LoadWithinSum(r.batch, t);
        GroupsVisible(q, b, other);
        LoadWithinSum(other, s);
        assert Load(other, s) <= b;
      } else {
        NoneWaits(q, b, r, other);
      }
    }
  }

  // ---------------------------------------------------------------- three sets without one

  /** The later two sets meet the first one in parts that are not nested, and no device is in all three. */
  ghost predicate Entangled(x: Key, y: Key, z: Key) {
    && !(y * x <= z * x) && !(z * x <= y * x)
    && x * y * z == {}
  }

  /** Two evaluations wait on the first set, one on each of the others. */
  ghost predicate TwoOneOne(q: EvalQueues, x: Key, y: Key, z: Key) {
    && GoodQueues(q) && SearchOrder(q) == [x, y, z]
    && |Get(q, x)| == 2 && |Get(q, y)| == 1 && |Get(q, z)| == 1
  }

  lemma LoadOfThree(order: seq<Key>, g: seq<nat>, s: Serial)
    requires |order| == |g| == 3
    ensures LoadOf(order[..1], g[..1], s) == (if s in order[0] then g[0] else 0)
    ensures LoadOf(order, g, s) == (if s in order[0] then g[0] else 0) + (if s in order[1] then g[1] else 0)
                                   + (if s in order[2] then g[2] else 0)
  {
    LoadSnoc(order, g, s, 0);
    LoadSnoc(order, g, s, 1);
    LoadSnoc(order, g, s, 2);
    assert order[..3] == order && g[..3] == g;
  }

  lemma TotalOfThree(g: seq<nat>)
    requires |g| == 3
    ensures Total(g) == g[0] + g[1] + g[2]
  {
    assert Total(g[..1]) == Total(g[..1][..0]) + g[0];
    assert g[..2][..1] == g[..1];
  }

  /** The first set takes both slots of devices that the other two need. */
  lemma FirstStarvesOthers(order: seq<Key>, g: seq<nat>)
    requires |order| == 3 && Greedy(order, g, 2, [2, 1, 1]) && Entangled(order[0], order[1], order[2])
    ensures Total(g) == 2
  {
    hide LoadOf, Total;
    if FullBy(order, g, 2, 0) {
      var s :| s in order[0] && LoadOf(order[..0 + 1], g[..0 + 1], s) == 2;
      LoadOfThree(order, g, s);
    }
    assert g[0] == 2;
    var t :| t in order[1] * order[0];
    LoadOfThree(order, g, t);
    assert LoadOf(order, g, t) <= 2;
    var u :| u in order[2] * order[0];
    LoadOfThree(order, g, u);
    assert LoadOf(order, g, u) <= 2;
    TotalOfThree(g);
  }

  lemma OnlyTwoSent(q: EvalQueues, x: Key, y: Key, z: Key)
    requires TwoOneOne(q, x, y, z) && Entangled(x, y, z)
    ensures BatchSum(NextBatch(q, 2).batch, Each()) == 2
  {
    var order, r := SearchOrder(q), NextBatch(q, 2);
    SearchOrderVisits(q);
    BatchIsGreedy(q, order, 2);
    assert Limits(q, order) == [2, 1, 1];
    FirstStarvesOthers(order, Amounts(order, r.batch));
    TotalByKeys(order, r.batch);
    KeySumIsBatchSum(order, r.batch, Each());
  }

  lemma LoadOfSingles(g: Group, h: Group, i: Group, s: Serial)
    requires |g.evals| == |h.evals| == |i.evals| == 1
    ensures Load([] + [g] + [h] + [i], s) ==
            (if s in g.serials then 1 else 0) + (if s in h.serials then 1 else 0) + (if s in i.serials then 1 else 0)
  {
    AddGroup([], g);
    AddGroup([] + [g], h);
    AddGroup([] + [g] + [h], i);
    assert Load([], s) == 0;
    hide Load;
  }

  lemma AmountOfSingles(g: Group, h: Group, i: Group, k: Key)
    requires |g.evals| == |h.evals| == |i.evals| == 1
    ensures Amount([] + [g] + [h] + [i], k) ==
            (if g.serials == k then 1 else 0) + (if h.serials == k then 1 else 0) + (if i.serials == k then 1 else 0)
  {
    AddGroup([], g);
    AddGroup([] + [g], h);
    AddGroup([] + [g] + [h], i);
    assert Amount([], k) == 0;
    hide Amount;
  }

  lemma SumOfSingles(g: Group, h: Group, i: Group)
    requires |g.evals| == |h.evals| == |i.evals| == 1
    ensures BatchSum([] + [g] + [h] + [i], Each()) == 3
  {
    SumAddGroup([], g, Each());
    SumAddGroup([] + [g], h, Each());
    SumAddGroup([] + [g] + [h], i, Each());
  }

  lemma VisibleThree(q: EvalQueues, x: Key, y: Key, z: Key)
    requires GoodQueues(q) && SearchOrder(q) == [x, y, z]
    ensures x in Visible(q) && y in Visible(q) && z in Visible(q) && x != y && x != z && y != z
  {
    SearchOrderVisits(q);
    var order := SearchOrder(q);
    assert order[0] in order && order[1] in order && order[2] in order;
    assert order[0] != order[1] && order[0] != order[2] && order[1] != order[2];
  }

  /** One evaluation of each set. */
  lemma ThreeFit(q: EvalQueues, x: Key, y: Key, z: Key) returns (other: Batch)
    requires TwoOneOne(q, x, y, z) && Entangled(x, y, z)
    ensures Feasible(q, 2, other) && BatchSum(other, Each()) == 3
  {
    var g, h, i := Group(x, [Get(q, x)[0]]), Group(y, [Get(q, y)[0]]), Group(z, [Get(q, z)[0]]);
    VisibleThree(q, x, y, z);
    other := [] + [g] + [h] + [i];
    SumOfSingles(g, h, i);
    hide SearchOrder, Visible, BatchSum, Load, Amount, GoodQueues;
    forall s ensures Load(other, s) <= 2 {
      assert s !in x * y * z;
      LoadOfSingles(g, h, i, s);
    }
    forall k ensures Amount(other, k) <= (if k in Visible(q) then |Get(q, k)| else 0) {
      AmountOfSingles(g, h, i, k);
    }
  }

  /** Such a bundle, from its evaluations. */
  lemma Entangle(x: Key, y: Key, z: Key) returns (evals: seq<Evaluation>)
    requires {} !in [x, y, z] && SizeSorted([x, y, z]) && NoDuplicates([x, y, z])
    ensures TwoOneOne(FromEvaluations(evals), x, y, z)
  {
    var order := [x, y, z];
    assert order[0] in order && order[1] in order && order[2] in order;
    assert order[0] != order[1] && order[0] != order[2] && order[1] != order[2];
    var e0, e1, e2, e3 := Evaluation("0", x), Evaluation("1", y), Evaluation("2", z), Evaluation("3", x);
    var q := ThreeQueues(e0, e1, e2);
    evals := [e0, e1, e2] + [e3];
    FromSnoc([e0, e1, e2], e3);
    FromEvaluationsHolds(evals);
    hide FromEvaluations, Contents, GoodQueues;
    OneMoreWaits(q, e3, x, y, z);
  }

  lemma OneMoreWaits(q: EvalQueues, e: Evaluation, x: Key, y: Key, z: Key)
    requires GoodQueues(q) && q.order == [x, y, z] && SizeSorted([x, y, z]) && x != y && x != z && y != z
    requires |Get(q, x)| == |Get(q, y)| == |Get(q, z)| == 1 && e.serials == x && GoodQueues(Appended(q, x, e))
    ensures TwoOneOne(Appended(q, x, e), x, y, z)
  {
    var more := Appended(q, x, e);
    assert x in q.state && more.order == [x, y, z];
    assert |Get(more, x)| == 2 && Get(more, y) == Get(q, y) && Get(more, z) == Get(q, z);
    hide GoodQueues, Appended;
    VisibleUnique(more.order, more.state, more.order);
    SortedStays([x, y, z]);
  }

  /** Over three sets, in search order, every batch of every bundle is as large as it can be, whatever its
      evaluations and its batch size, if and only if the later two share nested parts with the first, or one
      device is in all three. */
  lemma ThreeKeysIff(order: seq<Key>)
    requires |order| == 3 && {} !in order && SizeSorted(order) && NoDuplicates(order)
    ensures (forall q, b | GoodQueues(q) && SearchOrder(q) == order && 0 < b :: IsMaximum(q, b)) <==>
            Comparable(order) || order[0] * order[1] * order[2] != {}
  {
    var x, y, z := order[0], order[1], order[2];
    assert order == [x, y, z];
    if Comparable(order) || x * y * z != {} {
      forall q, b | GoodQueues(q) && SearchOrder(q) == order && 0 < b ensures IsMaximum(q, b) {
        ThreeKeysIf(q, b, x, y, z);
      }
    } else {
      var evals := Entangle(x, y, z);
      var q := FromEvaluations(evals);
      OnlyTwoSent(q, x, y, z);
      var other := ThreeFit(q, x, y, z);
      assert !IsMaximum(q, 2);
    }
  }

  lemma ThreeKeysIf(q: EvalQueues, b: int, x: Key, y: Key, z: Key)
    requires GoodQueues(q) && SearchOrder(q) == [x, y, z] && 0 < b
    requires Comparable([x, y, z]) || x * y * z != {}
    ensures IsMaximum(q, b)
  {
    if Comparable([x, y, z]) {
      forall other | Feasible(q, b, other)
        ensures BatchSum(other, Each()) <= BatchSum(NextBatch(q, b).batch, Each())
      {
        MaximumWhenComparable(q, b, other);
      }
    } else {
      var s :| s in x * y * z;
      SearchOrderVisits(q);
      MaximumWithCommonDevice(q, b, s);
    }
  }
}
