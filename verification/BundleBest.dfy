/** How far a batch is from "the maximum evaluations" that the documentation of `__next__` promises. */
module BundleBest {
  import opened MappedQueuesModel
  import opened EvaluationBundleModel
  import opened BundleRuns
  import opened BundleDrain

  lemma {:induction false} AmountWithinLoad(batch: Batch, k: Key, s: Serial)
    requires s in k
    ensures Amount(batch, k) <= Load(batch, s)
  {
    if batch != [] {
      AmountWithinLoad(batch[..|batch| - 1], k, s);
    }
  }

  lemma DisjointTakeMost(q: EvalQueues, b: int, r: Filling, other: Batch, i: nat)
    requires 0 < b && Packs(q, b, r) && Feasible(q, b, other)
    requires Disjoint(Visible(q)) && i < |Visible(q)|
    ensures Amount(other, Visible(q)[i]) <= Amount(r.batch, Visible(q)[i])
  {
    var v, k := Visible(q), Visible(q)[i];
    assert k in v;
    if Get(r.queues, k) != [] {
      assert HasFullDevice(b, r.batch, k);
      var s :| s in k && Load(r.batch, s) == b;
      forall g | g in r.batch ensures g.serials in v {
        assert GroupTaken(q, v, r.batch, g);
      }
      LoadIsAmount(v, r.batch, i, s);
      AmountWithinLoad(other, k, s);
      assert Load(other, s) <= b;
    }
  }

  /** Over pairwise disjoint serial sets the promise holds: no feasible batch is larger. */
  lemma MaximumWhenDisjoint(q: EvalQueues, b: int, r: Filling, other: Batch)
    requires 0 < b && Packs(q, b, r) && Feasible(q, b, other) && Disjoint(Visible(q))
    ensures BatchSum(other, Each()) <= BatchSum(r.batch, Each())
  {
    var v := Visible(q);
    forall k | k in v && Each()(k) != 0 ensures Amount(other, k) <= Amount(r.batch, k) {
      var i :| 0 <= i < |v| && v[i] == k;
      DisjointTakeMost(q, b, r, other, i);
    }
    NoMoreOverall(q, b, r, other, Each());
  }

  // ---------------------------------------------------------------- where the promise fails

  lemma {:induction false} SortedStays(keys: seq<Key>)
    requires SizeSorted(keys)
    ensures SortBySize(keys) == keys
  {
    if keys != [] {
      var n := |keys| - 1;
      SortedStays(keys[..n]);
      assert keys == keys[..n] + [keys[n]];
    }
  }

  /** With one slot per device, a set that meets one already served gets nothing. */
  lemma MeetsServed(q: EvalQueues, served: Group, k: Key)
    requires |served.evals| == 1 && served.serials * k != {}
    ensures FillOne(Filling(q, [served]), k, 1) == Filling(q, [served])
  {
    var s :| s in served.serials * k;
    assert [served][..0] == [];
    forall x ensures Load([served], x) == if x in served.serials then 1 else 0 {
      assert Load([], x) == 0;
    }
    assert Slots(1, [served], k) <= 1 - Load([served], s);
  }

  lemma FirstIsServed(q: EvalQueues, k: Key, e: Evaluation)
    requires k != {} && k in q.state && q.state[k] == [e]
    ensures FillOne(Filling(q, []), k, 1).batch == [Group(k, [e])]
  {
    assert IsSlots(Slots(1, [], k), 1, [], k);
    assert PoppedItems([e], 1) == [e];
    assert [] + [Group(k, [e])] == [Group(k, [e])];
  }

  lemma FillAllSnoc(q: EvalQueues, front: seq<Key>, k: Key, b: int)
    requires {} !in front && k != {}
    ensures FillAll(q, front + [k], b) == FillOne(FillAll(q, front, b), k, b)
  {
    hide FillOne;
    assert (front + [k])[..|front|] == front;
  }

  /** Three sets of equal size, one evaluation each, the first meeting both others: only the first
      is served. */
  lemma FirstTakesAll(q: EvalQueues, x: Evaluation, y: Evaluation, z: Evaluation)
    requires GoodQueues(q) && q.order == [x.serials, y.serials, z.serials]
    requires Get(q, x.serials) == [x] && Get(q, y.serials) == [y] && Get(q, z.serials) == [z]
    requires |x.serials| == |y.serials| == |z.serials|
    requires x.serials * y.serials != {} && x.serials * z.serials != {}
    ensures NextBatch(q, 1).batch == [Group(x.serials, [x])]
    ensures Visible(q) == q.order
  {
    VisibleUnique(q.order, q.state, q.order);
    SortedStays(q.order);
    FirstIsServed(q, x.serials, x);
    FirstKeepsAll(q, x.serials, y.serials, z.serials, x);
    hide FillOne, FillAll, VisibleFrom, SortBySize, GoodQueues;
  }

  lemma FirstKeepsAll(q: EvalQueues, i: Key, j: Key, k: Key, e: Evaluation)
    requires i * j != {} && i * k != {}
    requires FillOne(Filling(q, []), i, 1).batch == [Group(i, [e])]
    ensures FillAll(q, [i, j, k], 1).batch == [Group(i, [e])]
  {
    hide FillOne;
    FillAllSnoc(q, [], i, 1);
    FillAllSnoc(q, [i], j, 1);
    FillAllSnoc(q, [i, j], k, 1);
    assert [] + [i] == [i] && [i] + [j] == [i, j] && [i, j] + [k] == [i, j, k];
    var left := FillOne(Filling(q, []), i, 1).queues;
    MeetsServed(left, Group(i, [e]), j);
    MeetsServed(left, Group(i, [e]), k);
  }

  lemma NewKey(evals: seq<Evaluation>, e: Evaluation)
    requires e.serials !in FromEvaluations(evals).state
    ensures FromEvaluations(evals + [e]) ==
            Queues(FromEvaluations(evals).order + [e.serials], FromEvaluations(evals).state[e.serials := [e]])
  {
    FromSnoc(evals, e);
    assert [] + [e] == [e];
    hide FromEvaluations;
  }

  lemma TwoQueues(x: Evaluation, y: Evaluation)
    requires x.serials != y.serials
    ensures FromEvaluations([x, y]) == Queues([x.serials, y.serials], map[x.serials := [x], y.serials := [y]])
  {
    NewKey([], x);
    assert [] + [x] == [x] && [] + [x.serials] == [x.serials];
    NewKey([x], y);
    assert [x] + [y] == [x, y] && [x.serials] + [y.serials] == [x.serials, y.serials];
    hide FromEvaluations;
  }

  lemma AppendThird<T>(x: T, y: T, z: T)
    ensures [x, y] + [z] == [x, y, z]
  {
  }

  lemma ThreeQueues(x: Evaluation, y: Evaluation, z: Evaluation) returns (q: EvalQueues)
    requires x.serials != {} && y.serials != {} && z.serials != {}
    requires x.serials != y.serials && x.serials != z.serials && y.serials != z.serials
    ensures q == FromEvaluations([x, y, z]) && GoodQueues(q)
    ensures q.order == [x.serials, y.serials, z.serials]
    ensures Get(q, x.serials) == [x] && Get(q, y.serials) == [y] && Get(q, z.serials) == [z]
  {
    q := FromEvaluations([x, y, z]);
    FromEvaluationsHolds([x, y, z]);
    TwoQueues(x, y);
    NewKey([x, y], z);
    AppendThird(x, y, z);
    AppendThird(x.serials, y.serials, z.serials);
    hide FromEvaluations, GoodQueues, Contents;
    ThreeLists(x, y, z);
  }

  lemma ThreeLists(x: Evaluation, y: Evaluation, z: Evaluation)
    requires x.serials != y.serials && x.serials != z.serials && y.serials != z.serials
    ensures var state := map[x.serials := [x], y.serials := [y]][z.serials := [z]];
            ListAt(state, x.serials) == [x] && ListAt(state, y.serials) == [y] && ListAt(state, z.serials) == [z]
  {
  }

  /** Two evaluations without a board in common make a feasible batch. */
  lemma PairFits(q: EvalQueues, y: Evaluation, z: Evaluation)
    requires y.serials !! z.serials && y.serials != z.serials
    requires y.serials in Visible(q) && z.serials in Visible(q)
    requires Get(q, y.serials) == [y] && Get(q, z.serials) == [z]
    ensures Feasible(q, 1, [Group(y.serials, [y]), Group(z.serials, [z])])
    ensures BatchSum([Group(y.serials, [y]), Group(z.serials, [z])], Each()) == 2
  {
    var first, second := Group(y.serials, [y]), Group(z.serials, [z]);
    assert [first, second] == [] + [first] + [second];
    AddGroup([], first);
    AddGroup([] + [first], second);
    SumAddGroup([], first, Each());
    SumAddGroup([] + [first], second, Each());
  }

  /** The first of three sets of equal size meets the other two, which do not meet each other: the
      batch serves one evaluation where two fit. */
  lemma TwoWouldFit(x: Evaluation, y: Evaluation, z: Evaluation) returns (q: EvalQueues, other: Batch)
    requires x.serials * y.serials != {} && x.serials * z.serials != {} && y.serials !! z.serials
    requires |x.serials| == |y.serials| == |z.serials| && x.serials != y.serials && x.serials != z.serials
    ensures q == FromEvaluations([x, y, z]) && GoodQueues(q) && Feasible(q, 1, other)
    ensures BatchSum(other, Each()) == 2 && BatchSum(NextBatch(q, 1).batch, Each()) == 1
  {
    q := ThreeQueues(x, y, z);
    FirstTakesAll(q, x, y, z);
    assert q.order[1] in Visible(q) && q.order[2] in Visible(q);
    hide FromEvaluations, GoodQueues, NextBatch, Visible, Feasible;
    PairFits(q, y, z);
    other := [Group(y.serials, [y]), Group(z.serials, [z])];
    SumAddGroup([], Group(x.serials, [x]), Each());
    assert [] + [Group(x.serials, [x])] == [Group(x.serials, [x])];
  }

  /** So the promise does not hold in general: circuits on boards {A,B}, {A,C} and {B,D}, one slot
      each. The bound of `GreedyWithinFactor` is met exactly. */
  lemma NotMaximum() returns (q: EvalQueues, other: Batch)
    ensures q == FromEvaluations([Evaluation("x", {"A", "B"}), Evaluation("y", {"A", "C"}),
                                  Evaluation("z", {"B", "D"})])
    ensures GoodQueues(q) && Feasible(q, 1, other)
    ensures BatchSum(other, Each()) == 2 && BatchSum(NextBatch(q, 1).batch, Each()) == 1
  {
    hide *;
    var x, y, z := Evaluation("x", {"A", "B"}), Evaluation("y", {"A", "C"}), Evaluation("z", {"B", "D"});
    assert "A"[0] != "B"[0] && "A"[0] != "C"[0] && "A"[0] != "D"[0];
    assert "B"[0] != "C"[0] && "B"[0] != "D"[0] && "C"[0] != "D"[0];
    assert "A" in x.serials * y.serials && "B" in x.serials * z.serials;
    assert "A" !in z.serials && "B" !in y.serials;
    q, other := TwoWouldFit(x, y, z);
  }
}
