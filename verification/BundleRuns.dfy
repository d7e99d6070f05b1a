/** What a bundle guarantees over all of its calls: how close one batch comes to the best, how
    many batches a run takes, and exactly when a run leaves evaluations behind. */
module BundleRuns {
  import opened Sequences
  import opened MappedQueuesModel
  import opened EvaluationBundleModel

  // ---------------------------------------------------------------- one batch against any other

  /** A batch that could be sent from the visible queues of `q`. */
  ghost predicate Feasible(q: EvalQueues, b: int, other: Batch) {
    && Capped(b, other)
    && forall k :: Amount(other, k) <= (if k in Visible(q) then |Get(q, k)| else 0)
  }

  /** The weighted sum of a batch, taken key by key instead of entry by entry. */
  ghost function KeySum(order: seq<Key>, batch: Batch, w: Key -> nat): nat {
    if order == [] then 0
    else KeySum(order[..|order| - 1], batch, w) + w(order[|order| - 1]) * Amount(batch, order[|order| - 1])
  }

  lemma {:induction false} KeySumAddGroup(order: seq<Key>, batch: Batch, g: Group, w: Key -> nat)
    requires NoDuplicates(order)
    ensures KeySum(order, batch + [g], w) ==
            KeySum(order, batch, w) + (if g.serials in order then w(g.serials) * |g.evals| else 0)
  {
    if order != [] {
      var n := |order| - 1;
      KeySumAddGroup(order[..n], batch, g, w);
      AddGroup(batch, g);
      hide Amount;
      TimesAdds(w(order[n]), Amount(batch, order[n]), |g.evals|);
    }
  }

  lemma TimesAdds(c: nat, m: nat, n: nat)
    ensures c * (m + n) == c * m + c * n
  {
  }

  lemma {:induction false} KeySumIsBatchSum(order: seq<Key>, batch: Batch, w: Key -> nat)
    requires NoDuplicates(order)
    requires forall g | g in batch :: g.serials in order || g.evals == []
    ensures KeySum(order, batch, w) == BatchSum(batch, w)
  {
    if batch == [] {
      KeySumOfNothing(order, w);
    } else {
      var n := |batch| - 1;
      assert batch == batch[..n] + [batch[n]];
      KeySumIsBatchSum(order, batch[..n], w);
      KeySumAddGroup(order, batch[..n], batch[n], w);
    }
  }

  lemma {:induction false} KeySumOfNothing(order: seq<Key>, w: Key -> nat)
    ensures KeySum(order, [], w) == 0
  {
    if order != [] {
      KeySumOfNothing(order[..|order| - 1], w);
    }
  }

  lemma {:induction false} KeySumMonotone(order: seq<Key>, x: Batch, y: Batch, w: Key -> nat)
    requires forall k | k in order && w(k) != 0 :: Amount(x, k) <= Amount(y, k)
    ensures KeySum(order, x, w) <= KeySum(order, y, w)
  {
    hide Amount;
    if order != [] {
      var k := order[|order| - 1];
      KeySumMonotone(order[..|order| - 1], x, y, w);
      TimesMonotone(w(k), Amount(x, k), Amount(y, k));
    }
  }

  lemma TimesMonotone(c: nat, m: nat, n: nat)
    requires c == 0 || m <= n
    ensures c * m <= c * n
  {
    if c != 0 { assert c * (n - m) >= 0; }
  }

  lemma {:induction false} SumSplits(batch: Batch, u: set<Serial>)
    ensures BatchSum(batch, Each()) <= BatchSum(batch, Hits(u)) + BatchSum(batch, Misses(u))
  {
    if batch != [] {
      var g := batch[|batch| - 1];
      SumSplits(batch[..|batch| - 1], u);
      var h, m := Hits(u)(g.serials), Misses(u)(g.serials);
      assert 1 <= h + m;
      assert |g.evals| <= (h + m) * |g.evals| == h * |g.evals| + m * |g.evals|;
    }
  }

  lemma {:induction false} SumRejoins(batch: Batch, u: set<Serial>, size: nat)
    requires forall g | g in batch :: 0 < |g.serials| <= size
    ensures BatchSum(batch, Hits(u)) + BatchSum(batch, Misses(u)) <= size * BatchSum(batch, Each())
  {
    if batch != [] {
      var g := batch[|batch| - 1];
      assert g in batch;
      SumRejoins(batch[..|batch| - 1], u, size);
      MeetIsSmaller(g.serials, u);
      SumWithin(Hits(u)(g.serials), Misses(u)(g.serials), |g.evals|, size, BatchSum(batch[..|batch| - 1], Each()));
    }
  }

  lemma SumWithin(h: nat, m: nat, n: nat, size: nat, rest: nat)
    requires h + m <= size
    ensures h * n + m * n <= size * n
    ensures size * (rest + n) == size * rest + size * n
  {
    assert (size - h - m) * n >= 0;
  }

  lemma MeetIsSmaller(k: Key, u: set<Serial>)
    ensures |k * u| <= |k|
  {
    assert k == (k * u) + (k - u);
    assert (k * u) !! (k - u);
  }

  /** The devices a batch fills up. */
  ghost function FullDevices(keys: seq<Key>, b: int, batch: Batch): set<Serial> {
    set k, s | k in keys && s in k && Load(batch, s) == b :: s
  }

  /** Away from the full devices no other batch takes more from any queue. */
  lemma OthersTakeNoMore(q: EvalQueues, b: int, r: Filling, other: Batch, k: Key)
    requires 0 < b && Packs(q, b, r) && Feasible(q, b, other)
    requires k in Visible(q) && k * FullDevices(Visible(q), b, r.batch) == {}
    ensures Amount(other, k) <= Amount(r.batch, k)
  {
    FullDeviceMeets(Visible(q), b, r.batch, k);
  }

  lemma FullDeviceMeets(keys: seq<Key>, b: int, batch: Batch, k: Key)
    requires k in keys
    ensures HasFullDevice(b, batch, k) ==> k * FullDevices(keys, b, batch) != {}
  {
    if HasFullDevice(b, batch, k) {
      var s :| s in k && Load(batch, s) == b;
      assert s in k * FullDevices(keys, b, batch);
    }
  }

  /** One call packs at least a `size`-th of what any feasible batch could, `size` being the
      largest number of devices an evaluation asks for. */
  lemma GreedyWithinFactor(q: EvalQueues, b: int, r: Filling, other: Batch, size: nat)
    requires 0 < b && Packs(q, b, r) && Feasible(q, b, other)
    requires forall k | k in Visible(q) :: |k| <= size
    ensures BatchSum(other, Each()) <= size * BatchSum(r.batch, Each())
  {
    var u := FullDevices(Visible(q), b, r.batch);
    MissesNoMore(q, b, r, other);
    SumSplits(other, u);
    HitsBound(other, u, b);
    HitsBound(r.batch, u, b);
    forall g | g in r.batch ensures 0 < |g.serials| <= size {
      assert GroupTaken(q, Visible(q), r.batch, g);
    }
    SumRejoins(r.batch, u, size);
  }

  lemma MissesNoMore(q: EvalQueues, b: int, r: Filling, other: Batch)
    requires 0 < b && Packs(q, b, r) && Feasible(q, b, other)
    ensures var u := FullDevices(Visible(q), b, r.batch);
            BatchSum(other, Misses(u)) <= BatchSum(r.batch, Misses(u))
  {
    var visible, u := Visible(q), FullDevices(Visible(q), b, r.batch);
    forall k | k in visible && Misses(u)(k) != 0 ensures Amount(other, k) <= Amount(r.batch, k) {
      OthersTakeNoMore(q, b, r, other, k);
    }
    NoMoreOverall(q, b, r, other, Misses(u));
  }

  /** A batch that takes no more of any key that counts weighs no more overall. */
  lemma NoMoreOverall(q: EvalQueues, b: int, r: Filling, other: Batch, w: Key -> nat)
    requires Packs(q, b, r) && Feasible(q, b, other)
    requires forall k | k in Visible(q) && w(k) != 0 :: Amount(other, k) <= Amount(r.batch, k)
    ensures BatchSum(other, w) <= BatchSum(r.batch, w)
  {
    var visible := Visible(q);
    GroupsVisible(q, b, other);
    forall g | g in r.batch ensures g.serials in visible {
      assert GroupTaken(q, visible, r.batch, g);
    }
    KeySumMonotone(visible, other, r.batch, w);
    KeySumIsBatchSum(visible, other, w);
    KeySumIsBatchSum(visible, r.batch, w);
  }

  lemma GroupsVisible(q: EvalQueues, b: int, other: Batch)
    requires Feasible(q, b, other)
    ensures forall g | g in other :: g.serials in Visible(q) || g.evals == []
  {
    forall g | g in other ensures g.serials in Visible(q) || g.evals == [] {
      AmountCovers(other, g);
      assert Amount(other, g.serials) <= (if g.serials in Visible(q) then |Get(q, g.serials)| else 0);
    }
  }

  lemma {:induction false} AmountCovers(batch: Batch, g: Group)
    requires g in batch
    ensures |g.evals| <= Amount(batch, g.serials)
  {
    var n := |batch| - 1;
    if g != batch[n] {
      AmountCovers(batch[..n], g);
    }
  }

  // ---------------------------------------------------------------- runs

  /** Successive calls on one bundle: `states[i]` before call `i`, `batches[i]` what it returns. */
  datatype Run = Run(b: int, states: seq<EvalQueues>, batches: seq<Batch>)

  ghost predicate IsRun(run: Run) {
    && 0 < run.b && |run.states| == |run.batches| + 1
    && (forall i | 0 <= i < |run.batches| :: StepAt(run, i))
  }

  /** Call `i` of a run. */
  ghost predicate StepAt(run: Run, i: nat)
    requires i < |run.batches| && i + 1 < |run.states|
  {
    && Packs(run.states[i], run.b, Filling(run.states[i + 1], run.batches[i]))
  }

  ghost predicate RunOf(evals: seq<Evaluation>, run: Run) {
    NonEmptySets(evals) && IsRun(run) && run.states[0] == FromEvaluations(evals)
  }

  ghost function SentBy(batches: seq<Batch>): multiset<Evaluation> {
    if batches == [] then multiset{} else SentBy(batches[..|batches| - 1]) + BatchContents(batches[|batches| - 1])
  }

  /** Nothing is lost, copied or invented over a whole run. */
  lemma RunConserves(evals: seq<Evaluation>, run: Run, n: nat)
    requires RunOf(evals, run) && n < |run.states|
    ensures SentBy(run.batches[..n]) + Contents(run.states[n]) == multiset(evals)
  {
    FromEvaluationsHolds(evals);
    RunConservesFrom(run, n);
  }

  lemma CallConserves(run: Run, i: nat)
    requires IsRun(run) && i < |run.batches|
    ensures SentBy(run.batches[..i + 1]) + Contents(run.states[i + 1]) ==
            SentBy(run.batches[..i]) + Contents(run.states[i])
  {
    hide Packs, Contents, BatchContents, SentBy;
    assert StepAt(run, i);
    SentSnoc(run.batches, i);
    PacksConserves(run.states[i], run.b, Filling(run.states[i + 1], run.batches[i]));
    Regrouped(SentBy(run.batches[..i]), BatchContents(run.batches[i]), Contents(run.states[i + 1]));
  }

  lemma SentSnoc(batches: seq<Batch>, i: nat)
    requires i < |batches|
    ensures SentBy(batches[..i + 1]) == SentBy(batches[..i]) + BatchContents(batches[i])
  {
    assert batches[..i + 1][..i] == batches[..i] && batches[..i + 1][i] == batches[i];
  }

  lemma PacksConserves(q: EvalQueues, b: int, r: Filling)
    requires Packs(q, b, r)
    ensures Contents(q) == Contents(r.queues) + BatchContents(r.batch)
  {
  }

  lemma Regrouped<T>(sent: multiset<T>, now: multiset<T>, rest: multiset<T>)
    ensures (sent + now) + rest == sent + (rest + now)
  {
  }

  lemma {:induction false} RunConservesFrom(run: Run, n: nat)
    requires IsRun(run) && n < |run.states|
    ensures SentBy(run.batches[..n]) + Contents(run.states[n]) == Contents(run.states[0])
    decreases n
  {
    if n > 0 {
      hide StepAt, SentBy, Contents;
      RunConservesFrom(run, n - 1);
      CallConserves(run, n - 1);
    }
  }

  /** One call: the keys keep their order, a key seen afterwards was seen before, and a key not
      seen keeps its queue. */
  lemma VisibleShrinks(q: EvalQueues, b: int, r: Filling, k: Key)
    requires Packs(q, b, r)
    ensures r.queues.order == q.order
    ensures k in Visible(r.queues) ==> k in Visible(q)
  {
    VisibleMonotone(q.order, q.state, r.queues.state);
  }

  lemma EmptyStaysEmpty(q: EvalQueues, b: int, r: Filling, k: Key)
    requires Packs(q, b, r)
    ensures r.queues.order == q.order
    ensures Get(q, k) == [] ==> Get(r.queues, k) == []
    ensures k !in Visible(q) ==> Get(r.queues, k) == Get(q, k)
  {
    hide SumsKept, Saturated, Capped, GoodQueues, Contents, Amount, Visible;
  }

  lemma CallKeepsOrder(run: Run, i: nat)
    requires IsRun(run) && i < |run.batches|
    ensures run.states[i + 1].order == run.states[i].order
  {
    hide SumsKept, Saturated, Capped, GoodQueues, Contents, Amount, Visible;
    assert StepAt(run, i);
  }

  lemma {:induction false} OrderFixed(run: Run, n: nat)
    requires IsRun(run) && n < |run.states|
    ensures run.states[n].order == run.states[0].order
    decreases n
  {
    if n > 0 {
      OrderFixed(run, n - 1);
      CallKeepsOrder(run, n - 1);
    }
  }

  /** A call that leaves `k` waiting has filled one of its devices. */
  lemma WaitingKeyPaidFor(q: EvalQueues, b: int, r: Filling, k: Key)
    requires 0 < b && Packs(q, b, r)
    requires k in Visible(q) && Get(r.queues, k) != []
    ensures b + QueueSum(r.queues.order, r.queues.state, Hits(k)) <= QueueSum(q.order, q.state, Hits(k))
  {
    assert HasFullDevice(b, r.batch, k);
    var s :| s in k && Load(r.batch, s) == b;
    LoadWithinHits(r.batch, k, s);
    assert SumsKept(q, r);
  }

  lemma OneMoreTimes(n: nat, b: int)
    requires n > 0
    ensures n * b == (n - 1) * b + b
  {
  }

  /** So call `n` still sees `k` only if the `n` calls before sent `n * b` evaluations, counted
      once per device, to the devices of `k`. */
  lemma {:induction false} SeenKeyPaidFor(run: Run, k: Key, n: nat)
    requires IsRun(run) && n < |run.states| && k in Visible(run.states[n])
    ensures n * run.b + QueueSum(run.states[n].order, run.states[n].state, Hits(k))
            <= QueueSum(run.states[0].order, run.states[0].state, Hits(k))
  {
    hide Packs, QueueSum, Hits;
    if n > 0 {
      var q, r := run.states[n - 1], Filling(run.states[n], run.batches[n - 1]);
      assert StepAt(run, n - 1);
      VisibleShrinks(q, run.b, r, k);
      SeenKeyPaidFor(run, k, n - 1);
      WaitingKeyPaidFor(q, run.b, r, k);
      hide IsRun, Visible;
      OneMoreTimes(n, run.b);
    }
  }

  /** A bundle that produces `n + 1` batches was given more than `n * b` evaluations, counted once
      per device, for the devices of its first evaluation. */
  lemma BatchCountBound(evals: seq<Evaluation>, run: Run, n: nat)
    requires RunOf(evals, run) && n < |run.batches| && run.batches[n] != []
    ensures evals != [] && n * run.b < EvalSum(evals, Hits(evals[0].serials))
  {
    FromEvaluationsKeys(evals);
    var q := run.states[n];
    assert StepAt(run, n);
    OrderFixed(run, n);
    var k := evals[0].serials;
    assert Visible(q)[0] == k && k in Visible(q);
    SeenKeyPaidFor(run, k, n);
    FromEvaluationsSum(evals, Hits(k));
    SumOfPresent(q.order, q.state, k);
  }

  lemma {:induction false} SumOfPresent(order: seq<Key>, state: map<Key, seq<Evaluation>>, k: Key)
    requires k in order && k != {} && ListAt(state, k) != []
    ensures 0 < QueueSum(order, state, Hits(k))
  {
    var n := |order| - 1;
    if order[n] == k {
      assert k * k == k && 0 < Hits(k)(k);
      TimesPositive(Hits(k)(k), |ListAt(state, k)|);
    } else {
      SumOfPresent(order[..n], state, k);
      TimesPositive(Hits(k)(order[n]), |ListAt(state, order[n])|);
    }
  }

  lemma TimesPositive(c: nat, n: nat)
    ensures 0 <= c * n && (0 < c && 0 < n ==> 0 < c * n)
  {
  }

  // ---------------------------------------------------------------- evaluations left behind

  ghost predicate AllEmpty(q: EvalQueues) {
    forall k | k in q.order :: Get(q, k) == []
  }

  /** A non-empty queue stands behind an emptied one. */
  ghost predicate GapAt(q: EvalQueues, i: nat, j: nat) {
    i < j < |q.order| && Get(q, q.order[i]) == [] && Get(q, q.order[j]) != []
  }

  ghost predicate HasGap(q: EvalQueues) {
    exists i, j :: GapAt(q, i, j)
  }

  lemma GapStays(q: EvalQueues, b: int, r: Filling, i: nat, j: nat)
    requires Packs(q, b, r) && GapAt(q, i, j)
    ensures r.queues.order == q.order && GapAt(r.queues, i, j)
    ensures Get(r.queues, q.order[j]) == Get(q, q.order[j])
  {
    var v, k := Visible(q), q.order[j];
    assert forall x | 0 <= x < |v| :: v[x] == q.order[x] && Get(q, v[x]) != [];
    EmptyStaysEmpty(q, b, r, q.order[i]);
    EmptyStaysEmpty(q, b, r, k);
  }

  /** Such a queue is never served again, however many calls follow. */
  lemma {:induction false} StrandedForever(run: Run, i: nat, j: nat, m: nat, n: nat)
    requires IsRun(run) && m <= n < |run.states| && GapAt(run.states[m], i, j)
    ensures GapAt(run.states[n], i, j)
    ensures run.states[n].order == run.states[m].order
    ensures Get(run.states[n], run.states[n].order[j]) == Get(run.states[m], run.states[m].order[j])
  {
    hide Packs, GapAt;
    if m < n {
      StrandedForever(run, i, j, m, n - 1);
      assert StepAt(run, n - 1);
      GapStays(run.states[n - 1], run.b, Filling(run.states[n], run.batches[n - 1]), i, j);
    }
  }

  /** A run that has stopped left nothing behind exactly when none of its states had a gap. */
  lemma DrainsIffNoGap(run: Run, n: nat)
    requires IsRun(run) && n < |run.batches| && run.batches[n] == []
    ensures AllEmpty(run.states[n]) <==> forall m | 0 <= m <= n :: !HasGap(run.states[m])
  {
    var last := run.states[n];
    assert StepAt(run, n);
    if AllEmpty(last) {
      forall m | 0 <= m <= n ensures !HasGap(run.states[m]) {
        if HasGap(run.states[m]) {
          var i, j :| GapAt(run.states[m], i, j);
          StrandedForever(run, i, j, m, n);
          assert false;
        }
      }
    } else {
      var k :| k in last.order && Get(last, k) != [];
      var j :| 0 <= j < |last.order| && last.order[j] == k;
      assert Get(last, last.order[0]) == [];
      assert GapAt(last, 0, j);
    }
  }
}
