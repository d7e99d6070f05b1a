/** When a run over pairwise disjoint serial sets serves every evaluation. Both ways the drivers
    build their evaluations are of this kind: one set shared by all, or one board each. */
module BundleDrain {
  import opened Sequences
  import opened MappedQueuesModel
  import opened EvaluationBundleModel
  import opened BundleRuns

  /** The batches `n` evaluations need at `b` per batch, rounded up. */
  ghost function Rounds(n: nat, b: int): nat
    requires 0 < b
  {
    (n + b - 1) / b
  }

  ghost predicate Disjoint(order: seq<Key>) {
    forall i, j | 0 <= i < j < |order| :: order[i] !! order[j]
  }

  ghost function RoundsAt(q: EvalQueues, b: int, i: nat): nat
    requires 0 < b && i < |q.order|
  {
    Rounds(|Get(q, q.order[i])|, b)
  }

  /** No serial set needs more batches than one that came before it. */
  ghost predicate NonIncreasing(q: EvalQueues, b: int)
    requires 0 < b
  {
    forall i, j | 0 <= i < j < |q.order| :: RoundsAt(q, b, j) <= RoundsAt(q, b, i)
  }

  lemma RoundsLess(n: nat, b: int)
    requires 0 < b
    ensures Rounds(0, b) == 0
    ensures 0 < n <= b ==> Rounds(n, b) == 1
    ensures b < n ==> Rounds(n, b) == Rounds(n - b, b) + 1
    ensures 0 < n ==> 0 < Rounds(n, b)
  {
    DivModUnique(b - 1, b, 0, b - 1);
    if 0 < n {
      var m := n - 1;
      DivModUnique(m + b, b, m / b + 1, m % b);
      if n <= b { DivModUnique(m, b, 0, m); }
    }
  }

  /** A device of `order[i]` is used by no other key, so its load is that key's share. */
  lemma {:induction false} LoadIsAmount(order: seq<Key>, batch: Batch, i: nat, s: Serial)
    requires Disjoint(order) && i < |order| && s in order[i]
    requires forall g | g in batch :: g.serials in order
    ensures Load(batch, s) == Amount(batch, order[i])
  {
    if batch != [] {
      var g := batch[|batch| - 1];
      assert g in batch;
      LoadIsAmount(order, batch[..|batch| - 1], i, s);
      var j :| 0 <= j < |order| && order[j] == g.serials;
      assert s in g.serials ==> i == j;
    }
  }

  /** With disjoint sets a call takes one full round off every visible key. */
  lemma StepRounds(q: EvalQueues, b: int, r: Filling, i: nat)
    requires 0 < b && Packs(q, b, r) && Disjoint(q.order) && i < |q.order|
    ensures r.queues.order == q.order
    ensures i < |Visible(q)| ==> RoundsAt(q, b, i) == RoundsAt(r.queues, b, i) + 1
    ensures |Visible(q)| <= i ==> RoundsAt(q, b, i) == RoundsAt(r.queues, b, i)
    ensures i == |Visible(q)| ==> RoundsAt(q, b, i) == 0
  {
    hide Packs, Disjoint, Rounds, Visible;
    RoundsLess(|Get(q, q.order[i])|, b);
    EmptyStaysEmpty(q, b, r, q.order[i]);
    if i < |Visible(q)| {
      TakesFullRound(q, b, r, i);
    } else {
      BeyondVisible(q, b, r, i);
    }
  }

  lemma BeyondVisible(q: EvalQueues, b: int, r: Filling, i: nat)
    requires Packs(q, b, r) && |Visible(q)| <= i < |q.order|
    ensures q.order[i] !in Visible(q)
    ensures i == |Visible(q)| ==> Get(q, q.order[i]) == []
  {
    hide TakenFrom, Saturated, Capped, SumsKept, Contents;
    EmptyStaysEmpty(q, b, r, q.order[i]);
    var v := Visible(q);
    assert forall x | 0 <= x < |v| :: v[x] == q.order[x];
  }

  lemma TakesFullRound(q: EvalQueues, b: int, r: Filling, i: nat)
    requires 0 < b && Packs(q, b, r) && Disjoint(q.order) && i < |Visible(q)|
    ensures r.queues.order == q.order
    ensures var before, after := |Get(q, q.order[i])|, |Get(r.queues, q.order[i])|;
            0 < before && after == if b < before then before - b else 0
  {
    var v, k := Visible(q), q.order[i];
    assert v[i] == k && k in v && k in q.state && k != {};
    forall g | g in r.batch ensures g.serials in q.order {
      assert GroupTaken(q, v, r.batch, g);
    }
    var s: Serial;
    if Get(r.queues, k) != [] {
      assert HasFullDevice(b, r.batch, k);
      s :| s in k && Load(r.batch, s) == b;
    } else {
      s :| s in k;
    }
    LoadIsAmount(q.order, r.batch, i, s);
    TakenAmount(q, b, r, k, s);
  }

  lemma TakenAmount(q: EvalQueues, b: int, r: Filling, k: Key, s: Serial)
    requires Packs(q, b, r) && k in q.state
    ensures |Get(r.queues, k)| == |Get(q, k)| - Amount(r.batch, k) && Load(r.batch, s) <= b
  {
    hide Amount, Load, Saturated, SumsKept, GroupTaken, Visible, Contents;
  }

  /** So the order of the rounds never changes, in either direction. */
  lemma StepKeepsOrder(q: EvalQueues, b: int, r: Filling)
    requires 0 < b && Packs(q, b, r) && Disjoint(q.order)
    ensures NonIncreasing(q, b) <==> NonIncreasing(r.queues, b)
  {
    hide Packs, RoundsAt, Visible;
    var v := |Visible(q)|;
    forall i | 0 <= i < |q.order|
      ensures r.queues.order == q.order
      ensures i < v ==> RoundsAt(q, b, i) == RoundsAt(r.queues, b, i) + 1
      ensures v <= i ==> RoundsAt(q, b, i) == RoundsAt(r.queues, b, i)
      ensures i == v ==> RoundsAt(q, b, i) == 0
    {
      StepRounds(q, b, r, i);
    }
    if q.order != [] { StepRounds(q, b, r, 0); } else { EmptyStaysEmpty(q, b, r, {}); }
    if NonIncreasing(q, b) {
      forall i, j | 0 <= i < j < |q.order| ensures RoundsAt(r.queues, b, j) <= RoundsAt(r.queues, b, i) {
        assert RoundsAt(q, b, j) <= RoundsAt(q, b, i);
        assert v < j ==> RoundsAt(q, b, j) <= RoundsAt(q, b, v);
      }
    } else {
      var i, j :| 0 <= i < j < |q.order| && RoundsAt(q, b, i) < RoundsAt(q, b, j);
      assert RoundsAt(r.queues, b, i) < RoundsAt(r.queues, b, j);
    }
  }

  lemma {:induction false} RunKeepsOrder(run: Run, n: nat)
    requires IsRun(run) && n < |run.states| && Disjoint(run.states[0].order)
    ensures run.states[n].order == run.states[0].order
    ensures NonIncreasing(run.states[n], run.b) <==> NonIncreasing(run.states[0], run.b)
  {
    hide Packs, NonIncreasing, Disjoint;
    OrderFixed(run, n);
    if n > 0 {
      RunKeepsOrder(run, n - 1);
      assert StepAt(run, n - 1);
      StepKeepsOrder(run.states[n - 1], run.b, Filling(run.states[n], run.batches[n - 1]));
    }
  }

  /** A run over disjoint serial sets that has stopped served every evaluation if and only if, in
      the order the sets first appear, none needs more batches than an earlier one. */
  lemma DrainsIff(evals: seq<Evaluation>, run: Run, n: nat)
    requires RunOf(evals, run) && Disjoint(FromEvaluations(evals).order)
    requires n < |run.batches| && run.batches[n] == []
    ensures Contents(run.states[n]) == multiset{} <==> NonIncreasing(FromEvaluations(evals), run.b)
  {
    hide Packs, Contents, Disjoint, NonIncreasing;
    RunKeepsOrder(run, n);
    assert StepAt(run, n);
    EmptyContents(run.states[n]);
    StoppedDrained(run.states[n], run.b, Filling(run.states[n + 1], run.batches[n]));
  }

  /** Once nothing is visible, the rounds still owed are in order exactly when there are none. */
  lemma StoppedDrained(q: EvalQueues, b: int, r: Filling)
    requires 0 < b && Packs(q, b, r) && r.batch == []
    ensures AllEmpty(q) <==> NonIncreasing(q, b)
  {
    assert Visible(q) == [];
    assert q.order != [] ==> Get(q, q.order[0]) == [];
    hide Packs, Visible, Rounds;
    forall i | 0 <= i < |q.order| ensures RoundsAt(q, b, i) == 0 <==> Get(q, q.order[i]) == [] {
      RoundsLess(|Get(q, q.order[i])|, b);
    }
    if NonIncreasing(q, b) {
      forall k | k in q.order ensures Get(q, k) == [] {
        var i :| 0 <= i < |q.order| && q.order[i] == k;
        assert i > 0 ==> RoundsAt(q, b, i) <= RoundsAt(q, b, 0);
      }
    } else {
      var i, j :| 0 <= i < j < |q.order| && RoundsAt(q, b, i) < RoundsAt(q, b, j);
      assert Get(q, q.order[j]) != [];
    }
  }

  lemma EmptyContents(q: EvalQueues)
    ensures AllEmpty(q) <==> Contents(q) == multiset{}
  {
    EmptyContentsFrom(q.order, q.state);
  }

  lemma {:induction false} EmptyContentsFrom(order: seq<Key>, state: map<Key, seq<Evaluation>>)
    ensures (forall k | k in order :: ListAt(state, k) == []) <==> ContentsFrom(order, state) == multiset{}
  {
    if order != [] {
      EmptyContentsFrom(order[1..], state);
      var l := ListAt(state, order[0]);
      if l != [] {
        assert l[0] in ContentsFrom(order, state);
      } else {
        assert forall k | k in order :: k == order[0] || k in order[1..];
      }
    }
  }

  /** Over disjoint sets a call produces a batch exactly if the first set still needs one. */
  lemma CallServesFirst(run: Run, i: nat)
    requires IsRun(run) && i < |run.batches|
    requires Disjoint(run.states[i].order) && run.states[i].order != []
    ensures run.states[i + 1].order == run.states[i].order
    ensures var owed, left := RoundsAt(run.states[i], run.b, 0), RoundsAt(run.states[i + 1], run.b, 0);
            && (run.batches[i] != [] <==> 0 < owed) && left == (if 0 < owed then owed - 1 else 0)
  {
    var q, r := run.states[i], Filling(run.states[i + 1], run.batches[i]);
    assert StepAt(run, i);
    assert Visible(q) == [] <==> Get(q, q.order[0]) == [];
    hide Packs, Disjoint, Visible, Rounds;
    RoundsLess(|Get(q, q.order[0])|, run.b);
    StepRounds(q, run.b, r, 0);
    PacksStops(q, run.b, r);
  }

  lemma PacksStops(q: EvalQueues, b: int, r: Filling)
    requires Packs(q, b, r)
    ensures r.batch == [] <==> Visible(q) == []
  {
  }

  /** Over disjoint sets call `n` produces a batch exactly while the first set still needs one. */
  lemma {:induction false} BatchCountExact(run: Run, n: nat)
    requires IsRun(run) && n < |run.batches|
    requires Disjoint(run.states[0].order) && run.states[0].order != []
    ensures run.states[n].order == run.states[0].order
    ensures var first := RoundsAt(run.states[0], run.b, 0);
            && RoundsAt(run.states[n], run.b, 0) == (if n < first then first - n else 0)
            && (run.batches[n] != [] <==> n < first)
    decreases n
  {
    hide Disjoint, RoundsAt, StepAt;
    OrderFixed(run, n);
    CallServesFirst(run, n);
    if n > 0 {
      OrderFixed(run, n - 1);
      BatchCountExact(run, n - 1);
      CallServesFirst(run, n - 1);
    }
  }

  // ---------------------------------------------------------------- the two drivers

  lemma {:induction false} KeysFromEvaluations(evals: seq<Evaluation>, k: Key)
    ensures k in FromEvaluations(evals).order ==> exists e | e in evals :: e.serials == k
  {
    if evals != [] && k in FromEvaluations(evals).order {
      var front, e := evals[..|evals| - 1], evals[|evals| - 1];
      assert e in evals;
      if k != e.serials {
        KeysFromEvaluations(front, k);
        var x :| x in front && x.serials == k;
        assert x in evals;
      }
    }
  }

  /** Every evaluation on the same set of boards: one key holds them all. */
  lemma {:induction false} OneSet(evals: seq<Evaluation>, k: Key)
    requires evals != [] && forall e | e in evals :: e.serials == k
    ensures FromEvaluations(evals) == Queues([k], map[k := evals])
  {
    var front, e := evals[..|evals| - 1], evals[|evals| - 1];
    assert e in evals && evals == front + [e];
    if front == [] {
      FirstKey(e);
    } else {
      assert forall x | x in front :: x in evals;
      OneSet(front, k);
      MoreUnderOneKey(front, k, e);
    }
  }

  lemma MoreUnderOneKey(front: seq<Evaluation>, k: Key, e: Evaluation)
    ensures Appended(Queues([k], map[k := front]), k, e) == Queues([k], map[k := front + [e]])
  {
    assert map[k := front][k := front + [e]] == map[k := front + [e]];
  }

  lemma FirstKey(e: Evaluation)
    ensures FromEvaluations([e]) == Queues([e.serials], map[e.serials := [e]])
  {
    assert [e][..0] == [] && [] + [e] == [e] && [] + [e.serials] == [e.serials];
  }

  /** Then nothing is left behind and the run takes `ceil(n / b)` batches. */
  lemma OneSetDrains(evals: seq<Evaluation>, k: Key, run: Run, n: nat)
    requires RunOf(evals, run) && n < |run.batches|
    requires evals != [] && forall e | e in evals :: e.serials == k
    ensures run.batches[n] != [] <==> n < Rounds(|evals|, run.b)
    ensures run.batches[n] == [] ==> Contents(run.states[n]) == multiset{}
  {
    OneSet(evals, k);
    var q := FromEvaluations(evals);
    assert q.order == [k] && Get(q, k) == evals;
    BatchCountExact(run, n);
    if run.batches[n] == [] {
      DrainsIff(evals, run, n);
    }
  }

  ghost function Flatten(groups: seq<seq<Evaluation>>): seq<Evaluation> {
    if groups == [] then [] else Flatten(groups[..|groups| - 1]) + groups[|groups| - 1]
  }

  /** Group `j` runs on the single board `serials[j]`. */
  ghost predicate OneBoardEach(groups: seq<seq<Evaluation>>, serials: seq<Serial>) {
    && |groups| <= |serials| && NoDuplicates(serials)
    && (forall j, e | 0 <= j < |groups| && e in groups[j] :: e.serials == {serials[j]})
    && (forall i, j | 0 <= i < j < |groups| :: |groups[j]| <= |groups[i]|)
  }

  lemma FromSnoc(evals: seq<Evaluation>, e: Evaluation)
    ensures FromEvaluations(evals + [e]) == Appended(FromEvaluations(evals), e.serials, e)
  {
    assert (evals + [e])[..|evals|] == evals;
  }

  /** Appending a group for a new board adds one key at the end, or none if the group is empty. */
  lemma {:induction false} AppendGroup(evals: seq<Evaluation>, group: seq<Evaluation>, k: Key)
    requires forall e | e in group :: e.serials == k
    requires k !in FromEvaluations(evals).state
    ensures var q := FromEvaluations(evals);
            FromEvaluations(evals + group) ==
            if group == [] then q else Queues(q.order + [k], q.state[k := group])
  {
    hide FromEvaluations;
    if group == [] {
      assert evals + group == evals;
    } else {
      var front, e := group[..|group| - 1], group[|group| - 1];
      assert e in group && forall x | x in front :: x in group;
      AppendGroup(evals, front, k);
      FromSnoc(evals + front, e);
      assert evals + group == (evals + front) + [e];
      assert front + [e] == group;
      var q := FromEvaluations(evals);
      assert q.state[k := front][k := group] == q.state[k := group];
    }
  }

  /** The queue built from dealt evaluations: key `j` is board `j`, with its own group. */
  ghost predicate BoardQueues(q: EvalQueues, groups: seq<seq<Evaluation>>, serials: seq<Serial>) {
    && |q.order| <= |groups| <= |serials|
    && (forall k | k in q.state :: k in q.order)
    && (forall j | 0 <= j < |q.order| :: q.order[j] == {serials[j]} && Get(q, q.order[j]) == groups[j])
    && (forall j | |q.order| <= j < |groups| :: groups[j] == [])
  }

  lemma {:induction false} DealtQueues(groups: seq<seq<Evaluation>>, serials: seq<Serial>)
    requires OneBoardEach(groups, serials)
    ensures BoardQueues(FromEvaluations(Flatten(groups)), groups, serials)
  {
    if groups != [] {
      var front, last := groups[..|groups| - 1], groups[|groups| - 1];
      assert front + [last] == groups;
      DealtQueues(front, serials);
      DealOneGroup(front, last, serials);
    }
  }

  lemma DealOneGroup(front: seq<seq<Evaluation>>, last: seq<Evaluation>, serials: seq<Serial>)
    requires OneBoardEach(front + [last], serials)
    requires BoardQueues(FromEvaluations(Flatten(front)), front, serials)
    ensures BoardQueues(FromEvaluations(Flatten(front) + last), front + [last], serials)
  {
    hide FromEvaluations, Flatten;
    var n, q, all := |front|, FromEvaluations(Flatten(front)), front + [last];
    var k := {serials[n]};
    forall j | 0 <= j < |q.order| ensures q.order[j] != k {
      assert serials[j] in q.order[j] && serials[j] != serials[n];
    }
    forall e | e in last ensures e.serials == k {
      assert e in all[n];
    }
    AppendGroup(Flatten(front), last, k);
    assert last == [] || |q.order| == n by {
      if |q.order| < n { assert |all[n]| <= |all[|q.order|]|; }
    }
  }

  lemma RoundsMonotone(m: nat, n: nat, b: int)
    requires 0 < b && m <= n
    ensures Rounds(m, b) <= Rounds(n, b)
    decreases n
  {
    RoundsLess(m, b);
    RoundsLess(n, b);
    if b < m {
      RoundsMonotone(m - b, n - b, b);
    }
  }

  /** Evaluations dealt round-robin, one board each: nothing is left behind. */
  lemma DealtDrains(groups: seq<seq<Evaluation>>, serials: seq<Serial>, run: Run, n: nat)
    requires OneBoardEach(groups, serials) && RunOf(Flatten(groups), run)
    requires n < |run.batches| && run.batches[n] == []
    ensures Contents(run.states[n]) == multiset{}
  {
    var q := FromEvaluations(Flatten(groups));
    DealtQueues(groups, serials);
    forall i, j | 0 <= i < j < |q.order| ensures q.order[i] !! q.order[j] {
      assert serials[i] != serials[j];
    }
    forall i, j | 0 <= i < j < |q.order| ensures RoundsAt(q, run.b, j) <= RoundsAt(q, run.b, i) {
      RoundsMonotone(|groups[j]|, |groups[i]|, run.b);
    }
    DrainsIff(Flatten(groups), run, n);
  }

  ghost function OneBoard(ids: seq<Id>, s: Serial): seq<Evaluation> {
    seq(|ids|, i requires 0 <= i < |ids| => Evaluation(ids[i], {s}))
  }

  /** Circuits split with `batch`, one slot per board. */
  ghost function Dealt(ids: seq<Id>, serials: seq<Serial>): seq<seq<Evaluation>> {
    seq(|serials|, j requires 0 <= j < |serials| => OneBoard(Stride(ids, j, |serials|), serials[j]))
  }

  /** How the drivers build the evaluations of a round-robin run. */
  method DealToBoards(ids: seq<Id>, serials: seq<Serial>) returns (evals: seq<Evaluation>)
    requires serials != []
    ensures evals == Flatten(Dealt(ids, serials))
  {
    var batches := MappedQueuesModel.Batch(ids, |serials|);
    ghost var groups := Dealt(ids, serials);
    evals := [];
    for j := 0 to |serials|
      invariant evals == Flatten(groups[..j])
    {
      ghost var before := evals;
      for i := 0 to |batches[j]|
        invariant evals == before + OneBoard(batches[j][..i], serials[j])
      {
        evals := evals + [Evaluation(batches[j][i], {serials[j]})];
      }
      assert batches[j][..|batches[j]|] == Stride(ids, j, |serials|);
      assert groups[..j + 1][..j] == groups[..j] && groups[..j + 1][j] == groups[j];
    }
    assert groups[..|serials|] == groups;
  }

  lemma {:induction false} FlattenMore(groups: seq<seq<Evaluation>>, j: nat, e: Evaluation)
    requires j < |groups|
    ensures multiset(Flatten(groups[j := groups[j] + [e]])) == multiset(Flatten(groups)) + multiset{e}
  {
    var n := |groups| - 1;
    var more := groups[j := groups[j] + [e]];
    if j == n {
      assert more[..n] == groups[..n];
    } else {
      FlattenMore(groups[..n], j, e);
      assert more[..n] == groups[..n][j := groups[..n][j] + [e]];
    }
  }

  lemma DealtMore(ids: seq<Id>, x: Id, serials: seq<Serial>)
    requires serials != []
    ensures var groups, j := Dealt(ids, serials), |ids| % |serials|;
            Dealt(ids + [x], serials) == groups[j := groups[j] + [Evaluation(x, {serials[j]})]]
  {
    var groups, longer, j := Dealt(ids, serials), Dealt(ids + [x], serials), |ids| % |serials|;
    forall i | 0 <= i < |serials|
      ensures longer[i] == if i == j then groups[i] + [Evaluation(x, {serials[i]})] else groups[i]
    {
      DealOne(ids, x, i, |serials|);
    }
  }

  /** Circuit `i` for board `i % |serials|`. */
  ghost function RoundRobin(ids: seq<Id>, serials: seq<Serial>): seq<Evaluation>
    requires serials != []
  {
    seq(|ids|, i requires 0 <= i < |ids| => Evaluation(ids[i], {serials[i % |serials|]}))
  }

  lemma NextInTurn(ids: seq<Id>, x: Id, serials: seq<Serial>)
    requires serials != []
    ensures multiset(RoundRobin(ids + [x], serials)) ==
            multiset(RoundRobin(ids, serials)) + multiset{Evaluation(x, {serials[|ids| % |serials|]})}
  {
    var e := Evaluation(x, {serials[|ids| % |serials|]});
    assert RoundRobin(ids + [x], serials) == RoundRobin(ids, serials) + [e];
  }

  /** The driver deals out every circuit once, in turn to the boards. */
  lemma {:induction false} DealtInTurn(ids: seq<Id>, serials: seq<Serial>)
    requires serials != []
    ensures multiset(Flatten(Dealt(ids, serials))) == multiset(RoundRobin(ids, serials))
  {
    if ids == [] {
      assert forall g | g in Dealt([], serials) :: g == [];
      NothingDealt(Dealt([], serials));
    } else {
      var n := |ids| - 1;
      var front, x, j := ids[..n], ids[n], n % |serials|;
      assert ids == front + [x] && |Dealt(front, serials)| == |serials|;
      DealtInTurn(front, serials);
      DealtMore(front, x, serials);
      NextInTurn(front, x, serials);
      hide Dealt, Flatten, RoundRobin;
      FlattenMore(Dealt(front, serials), j, Evaluation(x, {serials[j]}));
    }
  }

  lemma {:induction false} NothingDealt(groups: seq<seq<Evaluation>>)
    requires forall g | g in groups :: g == []
    ensures Flatten(groups) == []
  {
    if groups != [] {
      var n := |groups| - 1;
      assert groups[n] in groups && forall g | g in groups[..n] :: g in groups;
      NothingDealt(groups[..n]);
    }
  }

  /** So a round-robin run always evaluates every circuit. */
  lemma RoundRobinDrains(ids: seq<Id>, serials: seq<Serial>, run: Run, n: nat)
    requires NoDuplicates(serials) && RunOf(Flatten(Dealt(ids, serials)), run)
    requires n < |run.batches| && run.batches[n] == []
    ensures Contents(run.states[n]) == multiset{}
  {
    var groups := Dealt(ids, serials);
    forall i, j | 0 <= i < j < |groups| ensures |groups[j]| <= |groups[i]| {
      StrideLengths(ids, i, j, |serials|);
    }
    DealtDrains(groups, serials, run, n);
  }

  /** Nothing is left behind is false in general: two circuits for board "B" behind one for
      board "A", one per batch. Every run that stops has dropped one. */
  lemma DrainCanFail(run: Run, n: nat)
    requires RunOf([Evaluation("a", {"A"}), Evaluation("b1", {"B"}), Evaluation("b2", {"B"})], run)
    requires run.b == 1 && n < |run.batches| && run.batches[n] == []
    ensures Contents(run.states[n]) != multiset{}
  {
    var a, b1, b2 := Evaluation("a", {"A"}), Evaluation("b1", {"B"}), Evaluation("b2", {"B"});
    var evals := [a, b1, b2];
    OneSet([a], {"A"});
    assert "A" in {"A"} && "A" !in {"B"};
    AppendGroup([a], [b1, b2], {"B"});
    assert [a] + [b1, b2] == evals;
    var q := FromEvaluations(evals);
    assert q.order == [{"A"}, {"B"}] && Get(q, {"A"}) == [a] && Get(q, {"B"}) == [b1, b2];
    assert Disjoint(q.order);
    assert RoundsAt(q, 1, 0) == 1 && RoundsAt(q, 1, 1) == 2;
    DrainsIff(evals, run, n);
  }

  // ---------------------------------------------------------------- iterating to the end

  lemma {:induction false} BatchNotEmpty(batch: Batch)
    requires batch != [] && forall g | g in batch :: g.evals != []
    ensures BatchContents(batch) != multiset{}
  {
    var g := batch[|batch| - 1];
    assert g in batch && g.evals[0] in BatchContents(batch);
  }

  /** `for batch in bundle`: ends, and its batches are a run. */
  method Exhaust(bundle: EvaluationBundle) returns (batches: seq<Batch>, ghost run: Run)
    requires bundle.Valid()
    modifies bundle`empty, bundle.queue
    ensures IsRun(run) && run.b == bundle.batchSize && run.states[0] == old(bundle.queue.View())
    ensures run.batches == batches + [[]] && [] !in batches
    ensures bundle.empty && bundle.queue.View() == run.states[|batches| + 1]
  {
    hide Packs, GoodQueues, NextBatch, Visible, Contents;
    batches := [];
    run := Run(bundle.batchSize, [bundle.queue.View()], []);
    while true
      invariant bundle.Valid() && IsRun(run) && run.b == bundle.batchSize
      invariant run.batches == batches && [] !in batches
      invariant run.states[0] == old(bundle.queue.View()) && run.states[|batches|] == bundle.queue.View()
      decreases |Contents(bundle.queue.View())|
    {
      ghost var q := bundle.queue.View();
      var batch, stop := bundle.Next();
      ghost var r := Filling(bundle.queue.View(), batch);
      AddCallIsRun(run, r);
      run := AddCall(run, r);
      if stop {
        return;
      }
      batches := batches + [batch];
      CallShrinks(q, bundle.batchSize, r);
    }
  }

  ghost function AddCall(run: Run, r: Filling): Run {
    Run(run.b, run.states + [r.queues], run.batches + [r.batch])
  }

  lemma AddCallIsRun(run: Run, r: Filling)
    requires IsRun(run) && Packs(run.states[|run.states| - 1], run.b, r)
    ensures IsRun(AddCall(run, r))
  {
    hide Packs;
    var longer := AddCall(run, r);
    forall i | 0 <= i < |longer.batches| ensures StepAt(longer, i) {
      if i < |run.batches| {
        assert StepAt(run, i);
      }
    }
  }

  /** A call that returns a batch strictly shrinks what is waiting. */
  lemma CallShrinks(q: EvalQueues, b: int, r: Filling)
    requires Packs(q, b, r) && r.batch != []
    ensures |Contents(r.queues)| < |Contents(q)|
  {
    forall g | g in r.batch ensures g.evals != [] {
      assert GroupTaken(q, Visible(q), r.batch, g);
    }
    BatchNotEmpty(r.batch);
  }
}
