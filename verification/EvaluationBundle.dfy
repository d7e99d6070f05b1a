/** Client evaluations and the bundle that packs them into batches
    (src/icefarm/client/lib/BatchClient.py). */
module EvaluationBundleModel {
  import opened Sequences
  import opened MappedQueuesModel

  type Serial = string
  type Id = string

  /** A circuit to run on every device of `serials`. The set is non-empty in every bundle. */
  datatype Evaluation = Evaluation(id: Id, serials: set<Serial>)

  type Key = set<Serial>
  type EvalQueues = Queues<Key, Evaluation>

  /** One entry of a batch: the evaluations taken for one serial set. A batch is an
      insertion-ordered dictionary, here the sequence of its entries. */
  datatype Group = Group(serials: Key, evals: seq<Evaluation>)
  type Batch = seq<Group>

  // ---------------------------------------------------------------- weighted sums

  /** Sum of `w(serials)` over the evaluations of a batch. */
  ghost function BatchSum(batch: Batch, w: Key -> nat): nat {
    if batch == [] then 0
    else BatchSum(batch[..|batch| - 1], w) + w(batch[|batch| - 1].serials) * |batch[|batch| - 1].evals|
  }

  /** The same sum over the evaluations waiting in a queue. */
  ghost function QueueSum(order: seq<Key>, state: map<Key, seq<Evaluation>>, w: Key -> nat): nat {
    if order == [] then 0
    else QueueSum(order[..|order| - 1], state, w) + w(order[|order| - 1]) * |ListAt(state, order[|order| - 1])|
  }

  /** The same sum over a list of evaluations. */
  ghost function EvalSum(evals: seq<Evaluation>, w: Key -> nat): nat {
    if evals == [] then 0 else EvalSum(evals[..|evals| - 1], w) + w(evals[|evals| - 1].serials)
  }

  /** Weights: all evaluations count once; an evaluation counts once per device of `u` it uses;
      an evaluation counts when it uses no device of `u`. */
  ghost function Each(): Key -> nat {
    (k: Key) => 1
  }

  ghost function Hits(u: set<Serial>): Key -> nat {
    (k: Key) => |k * u|
  }

  ghost function Misses(u: set<Serial>): Key -> nat {
    (k: Key) => if k * u == {} then 1 else 0
  }

  /** How many evaluations of the batch go to device `s`. */
  ghost function Load(batch: Batch, s: Serial): nat {
    if batch == [] then 0
    else Load(batch[..|batch| - 1], s)
         + (if s in batch[|batch| - 1].serials then |batch[|batch| - 1].evals| else 0)
  }

  /** The loads of a set of devices add up to the weighted sum over the batch. */
  lemma {:induction false} HitsAddOneDevice(batch: Batch, u: set<Serial>, s: Serial)
    requires s !in u
    ensures BatchSum(batch, Hits(u + {s})) == BatchSum(batch, Hits(u)) + Load(batch, s)
  {
    if batch != [] {
      var g := batch[|batch| - 1];
      HitsAddOneDevice(batch[..|batch| - 1], u, s);
      MeetOneMore(g.serials, u, s);
      var h := |g.serials * u|;
      assert (h + 1) * |g.evals| == h * |g.evals| + |g.evals|;
    }
  }

  lemma MeetOneMore(k: Key, u: set<Serial>, s: Serial)
    requires s !in u
    ensures |k * (u + {s})| == |k * u| + (if s in k then 1 else 0)
  {
    assert k * (u + {s}) == (k * u) + (if s in k then {s} else {});
  }

  lemma {:induction false} HitsNoDevice(batch: Batch)
    ensures BatchSum(batch, Hits({})) == 0
  {
    if batch != [] {
      HitsNoDevice(batch[..|batch| - 1]);
      assert batch[|batch| - 1].serials * {} == {};
    }
  }

  lemma LoadWithinHits(batch: Batch, u: set<Serial>, s: Serial)
    requires s in u
    ensures BatchSum(batch, Hits(u)) == BatchSum(batch, Hits(u - {s})) + Load(batch, s)
  {
    HitsAddOneDevice(batch, u - {s}, s);
    assert u - {s} + {s} == u;
  }

  /** `Hits` at most `b` per device, and exactly `b` when every device of `u` is full. */
  lemma {:induction false} HitsBound(batch: Batch, u: set<Serial>, b: nat)
    requires forall s | s in u :: Load(batch, s) <= b
    ensures BatchSum(batch, Hits(u)) <= |u| * b
    ensures (forall s | s in u :: Load(batch, s) == b) ==> BatchSum(batch, Hits(u)) == |u| * b
    decreases |u|
  {
    if u == {} {
      HitsNoDevice(batch);
    } else {
      var s :| s in u;
      LoadWithinHits(batch, u, s);
      HitsBound(batch, u - {s}, b);
      assert |u| == |u - {s}| + 1;
      assert (|u - {s}| + 1) * b == |u - {s}| * b + b;
    }
  }

  lemma {:induction false} BatchSumMonotone(batch: Batch, w: Key -> nat, w': Key -> nat)
    requires forall g | g in batch :: w(g.serials) <= w'(g.serials)
    ensures BatchSum(batch, w) <= BatchSum(batch, w')
  {
    if batch != [] {
      var g := batch[|batch| - 1];
      BatchSumMonotone(batch[..|batch| - 1], w, w');
      assert w(g.serials) * |g.evals| <= w'(g.serials) * |g.evals|;
    }
  }

  lemma {:induction false} QueueSumFrame(order: seq<Key>, state: map<Key, seq<Evaluation>>,
                                         state': map<Key, seq<Evaluation>>, w: Key -> nat)
    requires forall k | k in order :: ListAt(state, k) == ListAt(state', k)
    ensures QueueSum(order, state, w) == QueueSum(order, state', w)
  {
    if order != [] {
      QueueSumFrame(order[..|order| - 1], state, state', w);
    }
  }

  lemma {:induction false} QueueSumReplace(order: seq<Key>, state: map<Key, seq<Evaluation>>, k: Key,
                                           l: seq<Evaluation>, w: Key -> nat)
    requires NoDuplicates(order) && k in order
    ensures QueueSum(order, state[k := l], w) + w(k) * |ListAt(state, k)| == QueueSum(order, state, w) + w(k) * |l|
  {
    var n := |order| - 1;
    if order[n] == k {
      QueueSumFrame(order[..n], state, state[k := l], w);
    } else {
      QueueSumReplace(order[..n], state, k, l, w);
    }
  }

  // ---------------------------------------------------------------- __next__

  /** `sorted(keys, key=len)`: a stable sort by size. */
  function InsertBySize(k: Key, sorted: seq<Key>): seq<Key> {
    if sorted == [] then [k]
    else if |sorted[|sorted| - 1]| <= |k| then sorted + [k]
    else InsertBySize(k, sorted[..|sorted| - 1]) + [sorted[|sorted| - 1]]
  }

  function SortBySize(keys: seq<Key>): seq<Key> {
    if keys == [] then [] else InsertBySize(keys[|keys| - 1], SortBySize(keys[..|keys| - 1]))
  }

  ghost predicate SizeSorted(keys: seq<Key>) {
    forall i, j | 0 <= i < j < |keys| :: |keys[i]| <= |keys[j]|
  }

  lemma {:induction false} InsertAddsKey(k: Key, sorted: seq<Key>)
    ensures multiset(InsertBySize(k, sorted)) == multiset(sorted) + multiset{k}
  {
    if sorted == [] {
      assert [] + [k] == [k];
    } else {
      var n := |sorted| - 1;
      assert sorted == sorted[..n] + [sorted[n]];
      if |sorted[n]| > |k| {
        InsertAddsKey(k, sorted[..n]);
      }
    }
  }

  lemma SortedExtend(front: seq<Key>, last: Key)
    requires SizeSorted(front) && forall i | 0 <= i < |front| :: |front[i]| <= |last|
    ensures SizeSorted(front + [last])
  {
    var all := front + [last];
    forall i, j | 0 <= i < j < |all| ensures |all[i]| <= |all[j]| {
      assert all[i] == front[i];
      if j < |front| { assert all[j] == front[j]; }
    }
  }

  lemma {:induction false} InsertKeepsSorted(k: Key, sorted: seq<Key>)
    requires SizeSorted(sorted)
    ensures SizeSorted(InsertBySize(k, sorted))
  {
    if sorted != [] {
      var n := |sorted| - 1;
      if |sorted[n]| <= |k| {
        SortedExtend(sorted, k);
      } else {
        var front := InsertBySize(k, sorted[..n]);
        InsertKeepsSorted(k, sorted[..n]);
        InsertAddsKey(k, sorted[..n]);
        forall i | 0 <= i < |front| ensures |front[i]| <= |sorted[n]| {
          assert front[i] in multiset(front);
          assert front[i] == k || front[i] in sorted[..n];
        }
        SortedExtend(front, sorted[n]);
      }
    }
  }

  lemma {:induction false} SortBySizeSorts(keys: seq<Key>)
    ensures SizeSorted(SortBySize(keys))
    ensures multiset(SortBySize(keys)) == multiset(keys)
  {
    if keys != [] {
      var n := |keys| - 1;
      SortBySizeSorts(keys[..n]);
      InsertKeepsSorted(keys[n], SortBySize(keys[..n]));
      InsertAddsKey(keys[n], SortBySize(keys[..n]));
      assert keys == keys[..n] + [keys[n]];
    }
  }

  lemma SortKeepsKeys(keys: seq<Key>)
    requires NoDuplicates(keys)
    ensures NoDuplicates(SortBySize(keys))
    ensures forall k :: k in SortBySize(keys) <==> k in keys
  {
    SortBySizeSorts(keys);
    var sorted := SortBySize(keys);
    forall k ensures k in sorted <==> k in keys {
      assert k in multiset(sorted) <==> k in multiset(keys);
    }
    OnceEach(keys);
    OnceEachConverse(sorted);
  }

  lemma {:induction false} OnceEach<T>(s: seq<T>)
    requires NoDuplicates(s)
    ensures forall x | x in s :: multiset(s)[x] == 1
  {
    if s != [] {
      var n := |s| - 1;
      OnceEach(s[..n]);
      assert s == s[..n] + [s[n]];
      assert s[n] !in s[..n];
    }
  }

  lemma OnceEachConverse<T>(s: seq<T>)
    requires forall x | x in s :: multiset(s)[x] == 1
    ensures NoDuplicates(s)
  {
    forall i, j | 0 <= i < j < |s| ensures s[i] != s[j] {
      assert s == s[..i] + [s[i]] + s[i + 1..j] + [s[j]] + s[j + 1..];
      assert s[i] in multiset(s);
    }
  }

  /** `min(batch_size - serial_amounts[serial] for serial in serials)`. */
  ghost predicate IsSlots(slots: int, b: int, batch: Batch, serials: Key) {
    && (exists s | s in serials :: slots == b - Load(batch, s))
    && (forall s | s in serials :: slots <= b - Load(batch, s))
  }

  lemma {:induction false} SlotsExist(b: int, batch: Batch, serials: Key) returns (slots: int)
    requires serials != {}
    ensures IsSlots(slots, b, batch, serials)
    decreases |serials|
  {
    var s :| s in serials;
    slots := b - Load(batch, s);
    if serials != {s} {
      assert serials == serials - {s} + {s};
      var other := SlotsExist(b, batch, serials - {s});
      if other < slots { slots := other; }
    }
  }

  ghost function Slots(b: int, batch: Batch, serials: Key): (slots: int)
    requires serials != {}
    ensures IsSlots(slots, b, batch, serials)
  {
    assert exists r :: IsSlots(r, b, batch, serials) by {
      var r := SlotsExist(b, batch, serials);
    }
    var r :| IsSlots(r, b, batch, serials);
    r
  }

  /** A batch under construction, and what is left in the queues. */
  datatype Filling = Filling(queues: EvalQueues, batch: Batch)

  ghost predicate GoodQueues(q: EvalQueues) {
    && WellFormed(q)
    && {} !in q.state
    && forall k, e | k in q.state && e in q.state[k] :: e.serials == k
  }

  ghost function Take(st: Filling, k: Key, slots: int): Filling {
    Filling(AfterPop(st.queues, k, slots), st.batch + [Group(k, PoppedItems(Get(st.queues, k), slots))])
  }

  /** One turn of the loop: fill the remaining slots of `serials`. */
  ghost function FillOne(st: Filling, serials: Key, b: int): Filling
    requires serials != {}
  {
    var slots := Slots(b, st.batch, serials);
    if slots == 0 then st else Take(st, serials, slots)
  }

  ghost function FillAll(q: EvalQueues, order: seq<Key>, b: int): Filling
    requires {} !in order
  {
    if order == [] then Filling(q, [])
    else FillOne(FillAll(q, order[..|order| - 1], b), order[|order| - 1], b)
  }

  ghost function SearchOrder(q: EvalQueues): (keys: seq<Key>)
    requires GoodQueues(q)
    ensures {} !in keys
  {
    SortKeepsKeys(Visible(q));
    SortBySize(Visible(q))
  }

  /** The batch `__next__` produces and the queues it leaves. An empty batch is the end of the
      iteration. */
  ghost function NextBatch(q: EvalQueues, b: int): Filling
    requires GoodQueues(q)
  {
    FillAll(q, SearchOrder(q), b)
  }

  /** How many evaluations of key `k` the batch holds. */
  ghost function Amount(batch: Batch, k: Key): nat {
    if batch == [] then 0
    else Amount(batch[..|batch| - 1], k)
         + (if batch[|batch| - 1].serials == k then |batch[|batch| - 1].evals| else 0)
  }

  ghost function BatchContents(batch: Batch): multiset<Evaluation> {
    if batch == [] then multiset{}
    else BatchContents(batch[..|batch| - 1]) + multiset(batch[|batch| - 1].evals)
  }

  /** Evaluations come off the end of their own queue, in reverse, and only off keys of `done`. */
  ghost predicate TakenFrom(q: EvalQueues, done: seq<Key>, st: Filling) {
    && st.queues.order == q.order && st.queues.state.Keys == q.state.Keys
    && (forall k | k in q.state ::
          && Amount(st.batch, k) <= |q.state[k]|
          && Get(st.queues, k) == q.state[k][..|q.state[k]| - Amount(st.batch, k)]
          && (k !in done ==> Amount(st.batch, k) == 0))
    && (forall g | g in st.batch :: GroupTaken(q, done, st.batch, g))
  }

  ghost predicate GroupTaken(q: EvalQueues, done: seq<Key>, batch: Batch, g: Group) {
    && g.serials in done && g.evals != []
    && |g.evals| == Amount(batch, g.serials)
    && g.evals == PoppedItems(Get(q, g.serials), |g.evals|)
  }

  /** No device gets more than the batch size. */
  ghost predicate Capped(b: int, batch: Batch) {
    forall s :: Load(batch, s) <= b
  }

  ghost predicate HasFullDevice(b: int, batch: Batch, k: Key) {
    exists s | s in k :: Load(batch, s) == b
  }

  /** A key that had its turn and still waits has a full device. */
  ghost predicate Saturated(done: seq<Key>, b: int, st: Filling) {
    forall k | k in done && Get(st.queues, k) != [] :: HasFullDevice(b, st.batch, k)
  }

  lemma AddGroup(batch: Batch, g: Group)
    ensures forall k :: Amount(batch + [g], k) == Amount(batch, k) + (if g.serials == k then |g.evals| else 0)
    ensures forall s :: Load(batch + [g], s) == Load(batch, s) + (if s in g.serials then |g.evals| else 0)
  {
    assert (batch + [g])[..|batch|] == batch;
  }

  /** Taking for a key that had no turn yet: its queue loses what the batch gains. */
  lemma TakeCounts(q: EvalQueues, done: seq<Key>, k: Key, slots: int, st: Filling)
    requires k !in done && k in q.state && TakenFrom(q, done, st)
    ensures st.queues.state[k] == q.state[k] && Amount(st.batch, k) == 0
    ensures var st' := Take(st, k, slots);
            && Amount(st'.batch, k) == PopCount(q.state[k], slots)
            && (forall x | x != k :: Amount(st'.batch, x) == Amount(st.batch, x))
            && st'.queues.state == st.queues.state[k := q.state[k][..|q.state[k]| - PopCount(q.state[k], slots)]]
            && st'.queues.order == st.queues.order
  {
    var l := q.state[k];
    assert Amount(st.batch, k) == 0 && l[..|l| - 0] == l;
    assert st.queues.state[k] == l && |PoppedItems(l, slots)| == PopCount(l, slots);
    AddGroup(st.batch, Group(k, PoppedItems(l, slots)));
    hide Amount, Load, PoppedItems, TakenFrom;
  }

  lemma TakeKeepsTaken(q: EvalQueues, done: seq<Key>, k: Key, slots: int, st: Filling)
    requires k !in done && k in q.state && q.state[k] != [] && 0 < slots && TakenFrom(q, done, st)
    ensures TakenFrom(q, done + [k], Take(st, k, slots))
  {
    var st' := Take(st, k, slots);
    TakeCounts(q, done, k, slots, st);
    hide Take, Amount, GroupTaken;
    forall g | g in st'.batch ensures GroupTaken(q, done + [k], st'.batch, g) {
      TakeKeepsGroup(q, done, k, slots, st, g);
    }
  }

  lemma TakeKeepsGroup(q: EvalQueues, done: seq<Key>, k: Key, slots: int, st: Filling, g: Group)
    requires k !in done && k in q.state && q.state[k] != [] && 0 < slots && TakenFrom(q, done, st)
    requires g in Take(st, k, slots).batch
    ensures GroupTaken(q, done + [k], Take(st, k, slots).batch, g)
  {
    var l := q.state[k];
    TakeCounts(q, done, k, slots, st);
    hide Amount;
    if g in st.batch {
      assert GroupTaken(q, done, st.batch, g);
    } else {
      assert g == Group(k, PoppedItems(l, slots));
      assert PoppedItems(l, slots) == PoppedItems(l, |g.evals|);
    }
  }

  lemma FillOneTakes(q: EvalQueues, done: seq<Key>, k: Key, b: int, st: Filling)
    requires k != {} && k !in done && k in q.state && q.state[k] != []
    requires TakenFrom(q, done, st) && Capped(b, st.batch)
    ensures TakenFrom(q, done + [k], FillOne(st, k, b))
  {
    var slots := Slots(b, st.batch, k);
    if slots != 0 {
      TakeKeepsTaken(q, done, k, slots, st);
    } else {
      forall h | h in st.batch ensures GroupTaken(q, done + [k], st.batch, h) {
        assert GroupTaken(q, done, st.batch, h);
      }
    }
  }

  lemma FillOneCaps(st: Filling, k: Key, b: int)
    requires k != {} && Capped(b, st.batch)
    ensures Capped(b, FillOne(st, k, b).batch)
    ensures forall s :: Load(st.batch, s) <= Load(FillOne(st, k, b).batch, s)
  {
    var slots := Slots(b, st.batch, k);
    AddGroup(st.batch, Group(k, PoppedItems(Get(st.queues, k), slots)));
  }

  lemma FullStaysFull(st: Filling, k: Key, b: int, x: Key)
    requires k != {} && Capped(b, st.batch) && HasFullDevice(b, st.batch, x)
    ensures HasFullDevice(b, FillOne(st, k, b).batch, x)
  {
    FillOneCaps(st, k, b);
    var s :| s in x && Load(st.batch, s) == b;
    assert Load(FillOne(st, k, b).batch, s) == b;
  }

  lemma LeftoverIsFull(st: Filling, k: Key, b: int)
    requires k != {} && k in st.queues.state && Capped(b, st.batch)
    requires Get(FillOne(st, k, b).queues, k) != []
    ensures HasFullDevice(b, FillOne(st, k, b).batch, k)
  {
    var slots := Slots(b, st.batch, k);
    var g := Group(k, PoppedItems(st.queues.state[k], slots));
    var s :| s in k && slots == b - Load(st.batch, s);
    AddGroup(st.batch, g);
    assert slots == 0 || |g.evals| == slots;
    assert Load(FillOne(st, k, b).batch, s) == b;
  }

  lemma FillOneSaturates(done: seq<Key>, st: Filling, k: Key, b: int)
    requires k != {} && k in st.queues.state && Capped(b, st.batch) && Saturated(done, b, st)
    ensures Saturated(done + [k], b, FillOne(st, k, b))
  {
    var st' := FillOne(st, k, b);
    forall x | x in done + [k] && Get(st'.queues, x) != [] ensures HasFullDevice(b, st'.batch, x) {
      if x == k {
        LeftoverIsFull(st, k, b);
      } else {
        assert x in done && Get(st.queues, x) == Get(st'.queues, x);
        FullStaysFull(st, k, b, x);
      }
    }
  }

  lemma {:induction false} FillAllFills(q: EvalQueues, order: seq<Key>, b: int)
    requires {} !in order && 0 < b
    requires NoDuplicates(order) && forall k | k in order :: k in q.state && q.state[k] != []
    ensures TakenFrom(q, order, FillAll(q, order, b))
    ensures Capped(b, FillAll(q, order, b).batch)
    ensures Saturated(order, b, FillAll(q, order, b))
  {
    if order != [] {
      var n := |order| - 1;
      var done, k := order[..n], order[n];
      assert order == done + [k];
      FillAllFills(q, done, b);
      var st := FillAll(q, done, b);
      FillOneTakes(q, done, k, b, st);
      FillOneCaps(st, k, b);
      FillOneSaturates(done, st, k, b);
    }
  }

  lemma {:induction false} FillAllConserves(q: EvalQueues, order: seq<Key>, b: int, w: Key -> nat)
    requires WellFormed(q) && {} !in order && forall k | k in order :: k in q.state
    ensures WellFormed(FillAll(q, order, b).queues) && FillAll(q, order, b).queues.order == q.order
    ensures FillAll(q, order, b).queues.state.Keys == q.state.Keys
    ensures Contents(q) == Contents(FillAll(q, order, b).queues) + BatchContents(FillAll(q, order, b).batch)
    ensures QueueSum(q.order, q.state, w) ==
            QueueSum(q.order, FillAll(q, order, b).queues.state, w) + BatchSum(FillAll(q, order, b).batch, w)
  {
    if order != [] {
      var n := |order| - 1;
      FillAllConserves(q, order[..n], b, w);
      FillOneConserves(FillAll(q, order[..n], b), order[n], b, w);
    }
  }

  lemma PopSum(q: EvalQueues, k: Key, amount: int, w: Key -> nat)
    requires WellFormed(q) && k in q.state
    ensures QueueSum(q.order, q.state, w) ==
            QueueSum(q.order, AfterPop(q, k, amount).state, w) + w(k) * PopCount(q.state[k], amount)
  {
    var l, n := q.state[k], PopCount(q.state[k], amount);
    QueueSumReplace(q.order, q.state, k, l[..|l| - n], w);
    TimesSplits(w(k), |l|, n);
    hide QueueSum;
  }

  lemma TimesSplits(c: nat, m: nat, n: nat)
    requires n <= m
    ensures c * m == c * (m - n) + c * n
  {
  }

  lemma TakeConserves(st: Filling, k: Key, slots: int, w: Key -> nat)
    requires WellFormed(st.queues) && k in st.queues.state
    ensures WellFormed(Take(st, k, slots).queues) && Take(st, k, slots).queues.order == st.queues.order
    ensures Contents(st.queues) + BatchContents(st.batch) ==
            Contents(Take(st, k, slots).queues) + BatchContents(Take(st, k, slots).batch)
    ensures QueueSum(st.queues.order, st.queues.state, w) + BatchSum(st.batch, w) ==
            QueueSum(st.queues.order, Take(st, k, slots).queues.state, w) + BatchSum(Take(st, k, slots).batch, w)
  {
    var l := st.queues.state[k];
    var g := Group(k, PoppedItems(l, slots));
    PopConserves(st.queues, k, slots);
    PopSum(st.queues, k, slots, w);
    SumAddGroup(st.batch, g, w);
    var c', p, c := Contents(AfterPop(st.queues, k, slots)), multiset(g.evals), BatchContents(st.batch);
    assert (c' + p) + c == c' + (c + p);
  }

  lemma FillOneConserves(st: Filling, k: Key, b: int, w: Key -> nat)
    requires WellFormed(st.queues) && k in st.queues.state && k != {}
    ensures WellFormed(FillOne(st, k, b).queues) && FillOne(st, k, b).queues.order == st.queues.order
    ensures FillOne(st, k, b).queues.state.Keys == st.queues.state.Keys
    ensures Contents(st.queues) + BatchContents(st.batch) ==
            Contents(FillOne(st, k, b).queues) + BatchContents(FillOne(st, k, b).batch)
    ensures QueueSum(st.queues.order, st.queues.state, w) + BatchSum(st.batch, w) ==
            QueueSum(st.queues.order, FillOne(st, k, b).queues.state, w) + BatchSum(FillOne(st, k, b).batch, w)
  {
    TakeConserves(st, k, Slots(b, st.batch, k), w);
  }

  lemma SumAddGroup(batch: Batch, g: Group, w: Key -> nat)
    ensures BatchSum(batch + [g], w) == BatchSum(batch, w) + w(g.serials) * |g.evals|
    ensures BatchContents(batch + [g]) == BatchContents(batch) + multiset(g.evals)
  {
    assert (batch + [g])[..|batch|] == batch;
  }

  /** What one call of `__next__` guarantees: `r` holds its batch and the queues it leaves. */
  ghost predicate Packs(q: EvalQueues, b: int, r: Filling) {
    && GoodQueues(r.queues)
    && TakenFrom(q, Visible(q), r)
    && Capped(b, r.batch)
    && Saturated(Visible(q), b, r)
    && (r.batch == [] <==> Visible(q) == [])
    && Contents(q) == Contents(r.queues) + BatchContents(r.batch)
    && SumsKept(q, r)
  }

  ghost predicate SumsKept(q: EvalQueues, r: Filling) {
    forall w: Key -> nat ::
      QueueSum(q.order, q.state, w) == QueueSum(r.queues.order, r.queues.state, w) + BatchSum(r.batch, w)
  }

  lemma SearchOrderVisits(q: EvalQueues)
    requires GoodQueues(q)
    ensures NoDuplicates(SearchOrder(q))
    ensures forall k :: k in SearchOrder(q) <==> k in Visible(q)
    ensures forall k | k in SearchOrder(q) :: k in q.state && q.state[k] != []
  {
    SortKeepsKeys(Visible(q));
  }

  lemma NextBatchPacks(q: EvalQueues, b: int)
    requires GoodQueues(q) && 0 < b
    ensures Packs(q, b, NextBatch(q, b))
  {
    hide FillAll, SearchOrder, Visible, BatchSum, QueueSum, BatchContents, Contents, Capped;
    var order, r := SearchOrder(q), NextBatch(q, b);
    SearchOrderVisits(q);
    FillAllFills(q, order, b);
    FillAllConserves(q, order, b, Each());
    VisitedIsVisible(q, order, b, r);
    forall w: Key -> nat
      ensures QueueSum(q.order, q.state, w) == QueueSum(r.queues.order, r.queues.state, w) + BatchSum(r.batch, w)
    {
      FillAllConserves(q, order, b, w);
    }
    BatchEmptyAtEnd(q, b);
  }

  /** Every group holds the evaluations from the end of its queue, the last one first, and its queue keeps
      the others; the queue of a key without a group stays as it is. */
  ghost predicate FromTheEnds(before: map<Key, seq<Evaluation>>, batch: Batch, after: map<Key, seq<Evaluation>>) {
    && after.Keys == before.Keys
    && (forall g | g in batch :: g.serials in before && TakenOff(before[g.serials], g.evals, after[g.serials]))
    && (forall k | k in before && (forall g | g in batch :: g.serials != k) :: after[k] == before[k])
  }

  ghost predicate TakenOff(l: seq<Evaluation>, taken: seq<Evaluation>, left: seq<Evaluation>) {
    && 0 < |taken| <= |l| && left == l[..|l| - |taken|]
    && forall i | 0 <= i < |taken| :: taken[i] == l[|l| - 1 - i]
  }

  lemma PackedFromTheEnds(q: EvalQueues, b: int, r: Filling)
    requires GoodQueues(q) && Packs(q, b, r)
    ensures FromTheEnds(q.state, r.batch, r.queues.state)
  {
    hide Amount, Visible, Saturated, Capped, Contents, SumsKept;
    forall g | g in r.batch
      ensures g.serials in q.state && TakenOff(q.state[g.serials], g.evals, r.queues.state[g.serials])
    {
      assert GroupTaken(q, Visible(q), r.batch, g);
      assert g.serials in q.state;
    }
    forall k | k in q.state && (forall g | g in r.batch :: g.serials != k)
      ensures r.queues.state[k] == q.state[k]
    {
      NoGroupNoAmount(r.batch, k);
    }
  }

  lemma {:induction false} NoGroupNoAmount(batch: Batch, k: Key)
    requires forall g | g in batch :: g.serials != k
    ensures Amount(batch, k) == 0
  {
    if batch != [] {
      NoGroupNoAmount(batch[..|batch| - 1], k);
      assert batch[|batch| - 1] in batch;
    }
  }

  lemma VisitedIsVisible(q: EvalQueues, order: seq<Key>, b: int, r: Filling)
    requires GoodQueues(q) && WellFormed(r.queues)
    requires forall k :: k in order <==> k in Visible(q)
    requires TakenFrom(q, order, r) && Saturated(order, b, r)
    ensures TakenFrom(q, Visible(q), r) && Saturated(Visible(q), b, r) && GoodQueues(r.queues)
  {
    hide Amount, Visible, HasFullDevice;
    forall g | g in r.batch ensures GroupTaken(q, Visible(q), r.batch, g) {
      assert GroupTaken(q, order, r.batch, g);
    }
    forall k, e | k in r.queues.state && e in r.queues.state[k] ensures e.serials == k {
      assert e in q.state[k];
    }
  }

  lemma BatchEmptyAtEnd(q: EvalQueues, b: int)
    requires GoodQueues(q) && 0 < b
    ensures NextBatch(q, b).batch == [] <==> Visible(q) == []
  {
    var order, r := SearchOrder(q), NextBatch(q, b);
    SearchOrderVisits(q);
    if Visible(q) != [] {
      FillAllFills(q, order, b);
      var k := Visible(q)[0];
      assert k in Visible(q) && k in order && q.state[k] != [];
      if Get(r.queues, k) != [] {
        assert HasFullDevice(b, r.batch, k);
      } else {
        assert Amount(r.batch, k) > 0;
      }
    }
  }

  // ---------------------------------------------------------------- construction

  ghost function FromEvaluations(evals: seq<Evaluation>): EvalQueues {
    if evals == [] then EmptyQueues()
    else Appended(FromEvaluations(evals[..|evals| - 1]), evals[|evals| - 1].serials, evals[|evals| - 1])
  }

  ghost predicate NonEmptySets(evals: seq<Evaluation>) {
    forall e | e in evals :: e.serials != {}
  }

  lemma AppendGood(q: EvalQueues, e: Evaluation)
    requires GoodQueues(q) && e.serials != {}
    ensures GoodQueues(Appended(q, e.serials, e))
    ensures Contents(Appended(q, e.serials, e)) == Contents(q) + multiset{e}
  {
    AppendedContents(q, e.serials, e);
    var q' := Appended(q, e.serials, e);
    forall k, x | k in q'.state && x in q'.state[k] ensures x.serials == k {
      if k == e.serials {
        assert x in Get(q, k) || x == e;
      }
    }
  }

  lemma {:induction false} FromEvaluationsHolds(evals: seq<Evaluation>)
    requires NonEmptySets(evals)
    ensures GoodQueues(FromEvaluations(evals))
    ensures Contents(FromEvaluations(evals)) == multiset(evals)
  {
    if evals == [] {
      assert GoodQueues(EmptyQueues());
    } else {
      hide GoodQueues, Contents, Appended;
      var front, e := evals[..|evals| - 1], evals[|evals| - 1];
      assert evals == front + [e];
      assert forall x | x in front :: x in evals;
      FromEvaluationsHolds(front);
      AppendGood(FromEvaluations(front), e);
    }
  }

  lemma {:induction false} FromEvaluationsKeys(evals: seq<Evaluation>)
    ensures forall k | k in FromEvaluations(evals).state :: FromEvaluations(evals).state[k] != []
    ensures evals != [] ==> FromEvaluations(evals).order != [] && FromEvaluations(evals).order[0] == evals[0].serials
    ensures evals == [] ==> FromEvaluations(evals).order == []
  {
    if evals != [] {
      FromEvaluationsKeys(evals[..|evals| - 1]);
    }
  }

  lemma AppendSum(q: EvalQueues, e: Evaluation, w: Key -> nat)
    requires WellFormed(q)
    ensures WellFormed(Appended(q, e.serials, e))
    ensures QueueSum(Appended(q, e.serials, e).order, Appended(q, e.serials, e).state, w) ==
            QueueSum(q.order, q.state, w) + w(e.serials)
  {
    var k, l, q' := e.serials, Get(q, e.serials), Appended(q, e.serials, e);
    AppendedContents(q, k, e);
    if k in q.state {
      QueueSumReplace(q.order, q.state, k, l + [e], w);
      assert w(k) * (|l| + 1) == w(k) * |l| + w(k);
    } else {
      assert q'.order[..|q.order|] == q.order;
      QueueSumFrame(q.order, q.state, q'.state, w);
      assert w(k) * |l + [e]| == w(k);
    }
  }

  lemma {:induction false} FromEvaluationsSum(evals: seq<Evaluation>, w: Key -> nat)
    requires NonEmptySets(evals)
    ensures WellFormed(FromEvaluations(evals))
    ensures QueueSum(FromEvaluations(evals).order, FromEvaluations(evals).state, w) == EvalSum(evals, w)
  {
    if evals != [] {
      var n := |evals| - 1;
      FromEvaluationsSum(evals[..n], w);
      AppendSum(FromEvaluations(evals[..n]), evals[n], w);
    }
  }

  /** The iterator over batches. */
  class EvaluationBundle {
    const queue: MappedQueues<Key, Evaluation>
    const batchSize: int
    const lookup: map<Id, Evaluation>
    var empty: bool

    ghost predicate Valid()
      reads this, queue
    {
      GoodQueues(queue.View()) && 0 < batchSize
    }

    constructor (evals: seq<Evaluation>, batchSize: int)
      requires NonEmptySets(evals) && 0 < batchSize
      ensures Valid() && fresh(queue) && !empty && this.batchSize == batchSize
      ensures queue.View() == FromEvaluations(evals)
      ensures forall e | e in evals :: e.id in lookup && lookup[e.id].id == e.id && lookup[e.id] in evals
    {
      var queue := new MappedQueues<Key, Evaluation>();
      var lookup: map<Id, Evaluation> := map[];
      for i := 0 to |evals|
        invariant fresh(queue) && queue.Valid() && queue.View() == FromEvaluations(evals[..i])
        invariant forall e | e in evals[..i] :: e.id in lookup
        invariant forall id | id in lookup :: lookup[id].id == id && lookup[id] in evals
      {
        assert evals[..i + 1][..i] == evals[..i] && evals[..i + 1][i] == evals[i];
        queue.Append(evals[i].serials, evals[i]);
        lookup := lookup[evals[i].id := evals[i]];
      }
      assert evals[..|evals|] == evals;
      FromEvaluationsHolds(evals);
      this.queue, this.batchSize, this.lookup, this.empty := queue, batchSize, lookup, false;
    }

    /** `__next__`: the next batch, or `stop` once nothing is visible any more. */
    method Next() returns (batch: Batch, stop: bool)
      requires Valid()
      modifies this`empty, queue
      ensures Valid()
      ensures Filling(queue.View(), batch) == NextBatch(old(queue.View()), batchSize)
      ensures Packs(old(queue.View()), batchSize, Filling(queue.View(), batch))
      ensures FromTheEnds(old(queue.state), batch, queue.state)
      ensures stop <==> Visible(old(queue.View())) == []
      ensures empty == (old(empty) || stop)
    {
      ghost var q := queue.View();
      var keys := queue.Keys();
      var order := SortBySize(keys);
      SortKeepsKeys(keys);
      batch := FillInOrder(order);
      assert Filling(queue.View(), batch) == NextBatch(q, batchSize);
      NextBatchPacks(q, batchSize);
      PackedFromTheEnds(q, batchSize, NextBatch(q, batchSize));
      stop := batch == [];
      if stop {
        empty := true;
      }
    }

    /** The loop over the sorted keys. */
    method FillInOrder(order: seq<Key>) returns (batch: Batch)
      requires queue.Valid() && {} !in order
      modifies queue
      ensures queue.Valid()
      ensures Filling(queue.View(), batch) == FillAll(old(queue.View()), order, batchSize)
    {
      hide FillOne;
      ghost var q := queue.View();
      var amounts: map<Serial, int> := map[];
      batch := [];
      for i := 0 to |order|
        invariant queue.Valid() && Counts(amounts, batch)
        invariant Filling(queue.View(), batch) == FillAll(q, order[..i], batchSize)
      {
        assert order[..i + 1][..i] == order[..i] && order[..i + 1][i] == order[i];
        batch, amounts := FillFrom(order[i], batch, amounts);
      }
      assert order[..|order|] == order;
    }

    /** The loop body: fill the slots that are left on all of `serials`. */
    method FillFrom(serials: Key, batch: Batch, amounts: map<Serial, int>)
      returns (batch': Batch, amounts': map<Serial, int>)
      requires queue.Valid() && serials != {} && Counts(amounts, batch)
      modifies queue
      ensures queue.Valid() && Counts(amounts', batch')
      ensures Filling(queue.View(), batch') == FillOne(Filling(old(queue.View()), batch), serials, batchSize)
    {
      batch', amounts' := batch, amounts;
      var slots := MinSlots(batchSize, amounts, serials, batch);
      if slots != 0 {
        var commands := queue.Pop(serials, slots);
        batch' := batch + [Group(serials, commands)];
        AddGroup(batch, Group(serials, commands));
        amounts' := AddToAll(amounts, serials, |commands|);
      }
    }
  }

  /** `serial_amounts` holds the loads of the batch so far. */
  ghost predicate Counts(amounts: map<Serial, int>, batch: Batch) {
    forall s :: Count(amounts, s) == Load(batch, s)
  }

  /** Reading a `Counter`: a missing key counts 0. */
  function Count(amounts: map<Serial, int>, s: Serial): int {
    if s in amounts then amounts[s] else 0
  }

  method MinSlots(b: int, amounts: map<Serial, int>, serials: Key, ghost batch: Batch) returns (slots: int)
    requires serials != {} && Counts(amounts, batch)
    ensures slots == Slots(b, batch, serials)
  {
    hide Count, Load;
    var first :| first in serials;
    slots := b - Count(amounts, first);
    var rest := serials - {first};
    while rest != {}
      invariant rest < serials
      invariant exists s | s in serials - rest :: slots == b - Load(batch, s)
      invariant forall s | s in serials - rest :: slots <= b - Load(batch, s)
      decreases |rest|
    {
      var s :| s in rest;
      if b - Count(amounts, s) < slots {
        slots := b - Count(amounts, s);
      }
      rest := rest - {s};
    }
    assert serials - rest == serials;
  }

  method AddToAll(amounts: map<Serial, int>, serials: Key, n: int) returns (amounts': map<Serial, int>)
    ensures forall s :: Count(amounts', s) == Count(amounts, s) + (if s in serials then n else 0)
  {
    amounts' := amounts;
    var rest := serials;
    while rest != {}
      invariant rest <= serials
      invariant forall s :: Count(amounts', s) == Count(amounts, s) + (if s in serials - rest then n else 0)
      decreases |rest|
    {
      var s :| s in rest;
      amounts' := amounts'[s := Count(amounts', s) + n];
      rest := rest - {s};
    }
  }
}
