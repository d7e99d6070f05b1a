/** A wide condition under which a batch is "the maximum evaluations" after all: any two keys meet an
    earlier one, in search order, in comparable sets. An exchange argument over amounts per key. */
module BundleExchange {
  import opened Sequences
  import opened MappedQueuesModel
  import opened EvaluationBundleModel
  import opened BundleRuns
  import opened BundleBest

  /** For every key: the devices that any two later keys share with it are nested. */
  ghost predicate Comparable(order: seq<Key>) {
    forall i, j, l | 0 <= i < j < |order| && i < l < |order| ::
      order[j] * order[i] <= order[l] * order[i] || order[l] * order[i] <= order[j] * order[i]
  }

  // ---------------------------------------------------------------- amounts per key

  ghost function Total(x: seq<nat>): nat {
    if x == [] then 0 else Total(x[..|x| - 1]) + x[|x| - 1]
  }

  /** How many evaluations go to device `s` when key `order[j]` gets `x[j]`. */
  ghost function LoadOf(order: seq<Key>, x: seq<nat>, s: Serial): nat
    requires |order| == |x|
  {
    if x == [] then 0
    else
      var n := |x| - 1;
      LoadOf(order[..n], x[..n], s) + (if s in order[n] then x[n] else 0)
  }

  lemma {:induction false} TotalUpdate(x: seq<nat>, i: nat, v: nat)
    requires i < |x|
    ensures Total(x[i := v]) == Total(x) - x[i] + v
  {
    var n := |x| - 1;
    if i == n {
      assert x[i := v][..n] == x[..n];
    } else {
      assert x[i := v][..n] == x[..n][i := v];
      TotalUpdate(x[..n], i, v);
    }
  }

  lemma {:induction false} LoadUpdate(order: seq<Key>, x: seq<nat>, s: Serial, i: nat, v: nat)
    requires i < |x| == |order|
    ensures LoadOf(order, x[i := v], s) == LoadOf(order, x, s) + (if s in order[i] then v - x[i] else 0)
  {
    var n := |x| - 1;
    if i == n {
      assert x[i := v][..n] == x[..n];
    } else {
      assert x[i := v][..n] == x[..n][i := v];
      LoadUpdate(order[..n], x[..n], s, i, v);
    }
  }

  /** If from position `i` on only key `i` brings anything to `s`, the load is made up by then. */
  lemma {:induction false} LoadUpTo(order: seq<Key>, x: seq<nat>, s: Serial, i: nat)
    requires i <= |x| == |order| && forall j | i <= j < |x| :: s !in order[j] || x[j] == 0
    ensures LoadOf(order, x, s) == LoadOf(order[..i], x[..i], s)
    decreases |x|
  {
    if i < |x| {
      var n := |x| - 1;
      LoadUpTo(order[..n], x[..n], s, i);
      assert order[..n][..i] == order[..i] && x[..n][..i] == x[..i];
    } else {
      assert order[..i] == order && x[..i] == x;
    }
  }

  ghost predicate Fits(order: seq<Key>, x: seq<nat>, b: int, limits: seq<nat>) {
    && |x| == |order| == |limits| && (forall j | 0 <= j < |x| :: x[j] <= limits[j])
    && forall s :: LoadOf(order, x, s) <= b
  }

  /** `g` is greedy: each key has all it may, or a device that is full by then. */
  ghost predicate Greedy(order: seq<Key>, g: seq<nat>, b: int, limits: seq<nat>) {
    && Fits(order, g, b, limits)
    && forall i | 0 <= i < |g| :: g[i] == limits[i] || FullBy(order, g, b, i)
  }

  ghost predicate FullBy(order: seq<Key>, g: seq<nat>, b: int, i: nat)
    requires i < |g| == |order|
  {
    exists s | s in order[i] :: LoadOf(order[..i + 1], g[..i + 1], s) == b
  }

  lemma {:induction false} LoadPrefix(order: seq<Key>, x: seq<nat>, s: Serial, i: nat)
    requires i <= |x| == |order|
    ensures LoadOf(order[..i], x[..i], s) <= LoadOf(order, x, s)
    decreases |x|
  {
    if i < |x| {
      var n := |x| - 1;
      LoadPrefix(order[..n], x[..n], s, i);
      assert order[..n][..i] == order[..i] && x[..n][..i] == x[..i];
    } else {
      assert order[..i] == order && x[..i] == x;
    }
  }

  /** Whoever agrees with the greedy choice before key `i` cannot have more of it. */
  lemma GreedyHasMost(order: seq<Key>, g: seq<nat>, x: seq<nat>, b: int, limits: seq<nat>, i: nat)
    requires Greedy(order, g, b, limits) && Fits(order, x, b, limits) && i < |x| && x[..i] == g[..i]
    ensures x[i] <= g[i]
  {
    if g[i] != limits[i] {
      assert FullBy(order, g, b, i);
      var s :| s in order[i] && LoadOf(order[..i + 1], g[..i + 1], s) == b;
      LoadSnoc(order, g, s, i);
      LoadSnoc(order, x, s, i);
      LoadPrefix(order, x, s, i + 1);
      assert LoadOf(order, x, s) <= b;
    }
  }

  lemma LoadSnoc(order: seq<Key>, x: seq<nat>, s: Serial, i: nat)
    requires i < |x| == |order|
    ensures LoadOf(order[..i + 1], x[..i + 1], s) ==
            LoadOf(order[..i], x[..i], s) + (if s in order[i] then x[i] else 0)
  {
    assert order[..i + 1][..i] == order[..i] && x[..i + 1][..i] == x[..i];
  }

  // ---------------------------------------------------------------- the exchange

  /** Of the later keys in use, one that shares most with key `i`; `i` itself if none is in use. */
  lemma {:induction false} WidestMeet(order: seq<Key>, x: seq<nat>, i: nat, end: nat) returns (j: nat)
    requires Comparable(order) && i < end <= |order| == |x|
    ensures i <= j < end && (j == i || x[j] > 0)
    ensures forall l | i < l < end && x[l] > 0 :: j != i && order[l] * order[i] <= order[j] * order[i]
    decreases end
  {
    if end == i + 1 {
      j := i;
    } else {
      var n := end - 1;
      j := WidestMeet(order, x, i, n);
      if x[n] > 0 && (j == i || order[j] * order[i] <= order[n] * order[i]) {
        j := n;
      }
    }
  }

  lemma NestedMeets(k: Key, m: Key, wide: Key, s: Serial)
    ensures k * m <= wide * m && s in k && s in m ==> s in wide
  {
    assert s in k && s in m ==> s in k * m;
  }

  /** A device of key `i` that no later key in use shares has a slot left. */
  lemma RoomLeft(order: seq<Key>, g: seq<nat>, x: seq<nat>, b: int, limits: seq<nat>, i: nat, s: Serial)
    requires Fits(order, g, b, limits) && |x| == |order| && i < |x| && x[..i] == g[..i] && x[i] < g[i]
    requires s in order[i] && forall l | i < l < |x| :: s !in order[l] || x[l] == 0
    ensures LoadOf(order, x, s) < b
  {
    LoadUpTo(order, x, s, i + 1);
    LoadSnoc(order, x, s, i);
    LoadSnoc(order, g, s, i);
    LoadPrefix(order, g, s, i + 1);
    assert LoadOf(order, g, s) <= b;
    hide LoadOf;
  }

  /** One more for key `i`, one less for key `j`, unless that is `i` itself. */
  ghost function Moved(x: seq<nat>, i: nat, j: nat): seq<nat>
    requires i < |x| && j < |x| && (j != i ==> x[j] > 0)
  {
    var more := x[i := x[i] + 1];
    if j == i then more else more[j := x[j] - 1]
  }

  lemma MovedLoad(order: seq<Key>, x: seq<nat>, i: nat, j: nat, s: Serial)
    requires i < |x| == |order| && j < |x| && (j != i ==> x[j] > 0)
    ensures LoadOf(order, Moved(x, i, j), s) ==
            LoadOf(order, x, s) + (if s in order[i] then 1 else 0) - (if j != i && s in order[j] then 1 else 0)
  {
    LoadUpdate(order, x, s, i, x[i] + 1);
    if j != i {
      LoadUpdate(order, x[i := x[i] + 1], s, j, x[j] - 1);
    }
    hide LoadOf;
  }

  lemma MovedTotal(x: seq<nat>, i: nat, j: nat)
    requires i < |x| && j < |x| && (j != i ==> x[j] > 0)
    ensures Total(x) <= Total(Moved(x, i, j))
  {
    hide Total;
    TotalUpdate(x, i, x[i] + 1);
    if j != i {
      var more := x[i := x[i] + 1];
      OneLess(more, j);
      assert more[j] == x[j];
    }
  }

  lemma OneLess(x: seq<nat>, j: nat)
    requires j < |x| && x[j] > 0
    ensures Total(x[j := x[j] - 1]) == Total(x) - 1
  {
    hide Total;
    TotalUpdate(x, j, x[j] - 1);
  }

  lemma MovedFits(order: seq<Key>, g: seq<nat>, x: seq<nat>, b: int, limits: seq<nat>, i: nat, j: nat, s: Serial)
    requires Fits(order, g, b, limits) && Fits(order, x, b, limits)
    requires i <= j < |x| && x[..i] == g[..i] && x[i] < g[i] && (j != i ==> x[j] > 0)
    requires forall l | i < l < |x| && x[l] > 0 :: j != i && order[l] * order[i] <= order[j] * order[i]
    ensures LoadOf(order, Moved(x, i, j), s) <= b
  {
    MovedLoad(order, x, i, j, s);
    assert LoadOf(order, x, s) <= b;
    hide LoadOf, Moved;
    if s in order[i] && (j == i || s !in order[j]) {
      forall l | i < l < |x| ensures s !in order[l] || x[l] == 0 {
        NestedMeets(order[l], order[i], order[j], s);
      }
      RoomLeft(order, g, x, b, limits, i, s);
    }
  }

  /** One more for key `i`, one less for the key that shares most with it: still feasible. */
  lemma Exchange(order: seq<Key>, g: seq<nat>, x: seq<nat>, b: int, limits: seq<nat>, i: nat) returns (y: seq<nat>)
    requires Comparable(order) && Fits(order, g, b, limits) && Fits(order, x, b, limits)
    requires i < |x| && x[..i] == g[..i] && x[i] < g[i]
    ensures Fits(order, y, b, limits) && y[..i] == g[..i] && y[i] == x[i] + 1
    ensures Total(x) <= Total(y)
  {
    var j := WidestMeet(order, x, i, |x|);
    y := Moved(x, i, j);
    MovedTotal(x, i, j);
    forall s ensures LoadOf(order, y, s) <= b {
      MovedFits(order, g, x, b, limits, i, j, s);
    }
    assert y[..i] == x[..i];
    hide LoadOf, Total, Comparable;
  }

  lemma {:induction false} AgreeAt(order: seq<Key>, g: seq<nat>, x: seq<nat>, b: int, limits: seq<nat>, i: nat)
    returns (y: seq<nat>)
    requires Comparable(order) && Greedy(order, g, b, limits) && Fits(order, x, b, limits)
    requires i < |x| && x[..i] == g[..i] && x[i] <= g[i]
    ensures Fits(order, y, b, limits) && y[..i + 1] == g[..i + 1] && Total(x) <= Total(y)
    decreases g[i] - x[i]
  {
    if x[i] == g[i] {
      y := x;
      assert y[..i + 1] == y[..i] + [y[i]] && g[..i + 1] == g[..i] + [g[i]];
    } else {
      var z := Exchange(order, g, x, b, limits, i);
      y := AgreeAt(order, g, z, b, limits, i);
    }
  }

  lemma {:induction false} GreedyIsMaximum(order: seq<Key>, g: seq<nat>, x: seq<nat>, b: int, limits: seq<nat>, i: nat)
    requires Comparable(order) && Greedy(order, g, b, limits) && Fits(order, x, b, limits)
    requires i <= |x| && x[..i] == g[..i]
    ensures Total(x) <= Total(g)
    decreases |x| - i
  {
    if i == |x| {
      assert x[..i] == x && g[..i] == g;
    } else {
      GreedyHasMost(order, g, x, b, limits, i);
      var y := AgreeAt(order, g, x, b, limits, i);
      GreedyIsMaximum(order, g, y, b, limits, i + 1);
    }
  }

  // ---------------------------------------------------------------- batches

  ghost function Amounts(order: seq<Key>, batch: Batch): seq<nat> {
    seq(|order|, j requires 0 <= j < |order| => Amount(batch, order[j]))
  }

  ghost function Limits(q: EvalQueues, order: seq<Key>): seq<nat> {
    seq(|order|, j requires 0 <= j < |order| => |Get(q, order[j])|)
  }

  ghost predicate Within(order: seq<Key>, batch: Batch) {
    forall g | g in batch :: g.serials in order || g.evals == []
  }

  lemma {:induction false} LoadOfNothing(order: seq<Key>, s: Serial)
    ensures LoadOf(order, Amounts(order, []), s) == 0
  {
    if order != [] {
      var n := |order| - 1;
      LoadOfNothing(order[..n], s);
      assert Amounts(order, [])[..n] == Amounts(order[..n], []);
    }
  }

  lemma {:induction false} LoadOfGroup(order: seq<Key>, batch: Batch, g: Group, s: Serial)
    requires NoDuplicates(order)
    ensures LoadOf(order, Amounts(order, batch + [g]), s) ==
            LoadOf(order, Amounts(order, batch), s) + (if g.serials in order && s in g.serials then |g.evals| else 0)
  {
    if order != [] {
      var n := |order| - 1;
      LoadOfGroup(order[..n], batch, g, s);
      AddGroup(batch, g);
      assert Amounts(order, batch)[..n] == Amounts(order[..n], batch);
      assert Amounts(order, batch + [g])[..n] == Amounts(order[..n], batch + [g]);
      assert order == order[..n] + [order[n]];
    }
  }

  /** The load of a device, key by key. */
  lemma {:induction false} LoadByKeys(order: seq<Key>, batch: Batch, s: Serial)
    requires NoDuplicates(order) && Within(order, batch)
    ensures LoadOf(order, Amounts(order, batch), s) == Load(batch, s)
  {
    if batch == [] {
      LoadOfNothing(order, s);
    } else {
      var front, g := batch[..|batch| - 1], batch[|batch| - 1];
      assert batch == front + [g] && g in batch;
      LoadByKeys(order, front, s);
      LoadOfGroup(order, front, g, s);
    }
  }

  lemma {:induction false} TotalByKeys(order: seq<Key>, batch: Batch)
    ensures Total(Amounts(order, batch)) == KeySum(order, batch, Each())
  {
    if order != [] {
      var n := |order| - 1;
      TotalByKeys(order[..n], batch);
      assert Amounts(order, batch)[..n] == Amounts(order[..n], batch);
    }
  }

  /** What a key got in its turn is what it has at the end. */
  lemma {:induction false} TurnIsFinal(q: EvalQueues, order: seq<Key>, b: int, i: nat, j: nat)
    requires {} !in order && NoDuplicates(order) && j < i <= |order|
    ensures Amount(FillAll(q, order[..i], b).batch, order[j]) == Amount(FillAll(q, order, b).batch, order[j])
    decreases |order|
  {
    hide FillAll, FillOne, Amount;
    if i < |order| {
      var n := |order| - 1;
      TurnIsFinal(q, order[..n], b, i, j);
      assert order[..n][..i] == order[..i] && order[..n] + [order[n]] == order;
      FillAllSnoc(q, order[..n], order[n], b);
      OtherKeysKeep(FillAll(q, order[..n], b), order[n], b, order[j]);
    } else {
      assert order[..i] == order;
    }
  }

  lemma OtherKeysKeep(st: Filling, k: Key, b: int, x: Key)
    requires k != {} && x != k
    ensures Amount(FillOne(st, k, b).batch, x) == Amount(st.batch, x)
  {
    AddGroup(st.batch, Group(k, PoppedItems(Get(st.queues, k), Slots(b, st.batch, k))));
  }

  lemma GroupsInOrder(q: EvalQueues, done: seq<Key>, st: Filling)
    requires TakenFrom(q, done, st)
    ensures Within(done, st.batch)
  {
    forall g | g in st.batch ensures g.serials in done {
      assert GroupTaken(q, done, st.batch, g);
    }
  }

  lemma TurnsAreFinal(q: EvalQueues, order: seq<Key>, b: int, i: nat)
    requires {} !in order && NoDuplicates(order) && i <= |order|
    ensures Amounts(order, FillAll(q, order, b).batch)[..i] == Amounts(order[..i], FillAll(q, order[..i], b).batch)
  {
    forall j | 0 <= j < i
      ensures Amount(FillAll(q, order, b).batch, order[j]) == Amount(FillAll(q, order[..i], b).batch, order[j])
    {
      TurnIsFinal(q, order, b, i, j);
    }
    hide FillAll, Amount;
  }

  /** After its turn a key has all its evaluations, or a device that is full. */
  lemma {:induction false} TurnIsGreedy(q: EvalQueues, order: seq<Key>, b: int, i: nat)
    requires {} !in order && 0 < b && NoDuplicates(order) && i < |order|
    requires forall k | k in order :: k in q.state && q.state[k] != []
    ensures var g := Amounts(order, FillAll(q, order, b).batch);
            g[i] == Limits(q, order)[i] || FullBy(order, g, b, i)
  {
    var done, k := order[..i + 1], order[i];
    var st, g := FillAll(q, done, b), Amounts(order, FillAll(q, order, b).batch);
    assert done[i] == k && k in done && forall x | x in done :: x in order;
    FillAllFills(q, done, b);
    GroupsInOrder(q, done, st);
    TurnsAreFinal(q, order, b, i + 1);
    hide FillAll, Amount, LoadOf, Load;
    assert g[i] == g[..i + 1][i];
    if Get(st.queues, k) != [] {
      assert HasFullDevice(b, st.batch, k);
      var s :| s in k && Load(st.batch, s) == b;
      LoadByKeys(done, st.batch, s);
      assert LoadOf(order[..i + 1], g[..i + 1], s) == b;
    } else {
      assert g[i] == |q.state[k]|;
    }
  }

  lemma BatchFits(q: EvalQueues, order: seq<Key>, b: int, batch: Batch)
    requires NoDuplicates(order) && Within(order, batch) && Capped(b, batch)
    requires forall k | k in order :: Amount(batch, k) <= |Get(q, k)|
    ensures Fits(order, Amounts(order, batch), b, Limits(q, order))
  {
    forall s ensures LoadOf(order, Amounts(order, batch), s) <= b {
      LoadByKeys(order, batch, s);
    }
  }

  lemma BatchIsGreedy(q: EvalQueues, order: seq<Key>, b: int)
    requires {} !in order && 0 < b && NoDuplicates(order)
    requires forall k | k in order :: k in q.state && q.state[k] != []
    ensures Greedy(order, Amounts(order, FillAll(q, order, b).batch), b, Limits(q, order))
    ensures Within(order, FillAll(q, order, b).batch)
  {
    var r := FillAll(q, order, b);
    FillAllFills(q, order, b);
    GroupsInOrder(q, order, r);
    BatchFits(q, order, b, r.batch);
    forall i | 0 <= i < |order|
      ensures Amounts(order, r.batch)[i] == Limits(q, order)[i] || FullBy(order, Amounts(order, r.batch), b, i)
    {
      TurnIsGreedy(q, order, b, i);
    }
  }

  /** Where the keys are comparable no feasible batch is larger than the one produced. */
  lemma MaximumWhenComparable(q: EvalQueues, b: int, other: Batch)
    requires GoodQueues(q) && 0 < b && Feasible(q, b, other) && Comparable(SearchOrder(q))
    ensures BatchSum(other, Each()) <= BatchSum(NextBatch(q, b).batch, Each())
  {
    var order, r := SearchOrder(q), NextBatch(q, b);
    SearchOrderVisits(q);
    GroupsVisible(q, b, other);
    BatchIsGreedy(q, order, b);
    BatchFits(q, order, b, other);
    GreedyIsMaximum(order, Amounts(order, r.batch), Amounts(order, other), b, Limits(q, order), 0);
    TotalByKeys(order, r.batch);
    TotalByKeys(order, other);
    KeySumIsBatchSum(order, r.batch, Each());
    KeySumIsBatchSum(order, other, Each());
  }
}
