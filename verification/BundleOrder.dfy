/** In which order a batch serves its keys: smaller sets first, and among sets of equal size the one whose
    first evaluation came first. */
module BundleOrder {
  import opened Sequences
  import opened MappedQueuesModel
  import opened EvaluationBundleModel

  /** `x` stands before `y` in the dictionary. */
  ghost predicate Earlier(keys: seq<Key>, x: Key, y: Key) {
    exists i, j :: 0 <= i < j < |keys| && keys[i] == x && keys[j] == y
  }

  ghost predicate GoesFirst(keys: seq<Key>, x: Key, y: Key) {
    |x| < |y| || (|x| == |y| && Earlier(keys, x, y))
  }

  ghost predicate Ranked(keys: seq<Key>, order: seq<Key>) {
    forall i, j | 0 <= i < j < |order| :: GoesFirst(keys, order[i], order[j])
  }

  lemma EarlierLonger(front: seq<Key>, k: Key, x: Key, y: Key)
    requires Earlier(front, x, y)
    ensures Earlier(front + [k], x, y)
  {
    var i, j :| 0 <= i < j < |front| && front[i] == x && front[j] == y;
    assert (front + [k])[i] == x && (front + [k])[j] == y;
  }

  lemma EarlierThanLast(front: seq<Key>, k: Key, x: Key)
    requires x in front
    ensures Earlier(front + [k], x, k)
  {
    var i :| 0 <= i < |front| && front[i] == x;
    assert (front + [k])[i] == x && (front + [k])[|front|] == k;
  }

  lemma RankedLonger(front: seq<Key>, k: Key, order: seq<Key>)
    requires Ranked(front, order)
    ensures Ranked(front + [k], order)
  {
    forall i, j | 0 <= i < j < |order| ensures GoesFirst(front + [k], order[i], order[j]) {
      assert GoesFirst(front, order[i], order[j]);
      if |order[i]| == |order[j]| {
        EarlierLonger(front, k, order[i], order[j]);
      }
    }
  }

  lemma RankedExtend(keys: seq<Key>, order: seq<Key>, k: Key)
    requires Ranked(keys, order) && forall x | x in order :: GoesFirst(keys, x, k)
    ensures Ranked(keys, order + [k])
  {
    forall i, j | 0 <= i < j < |order + [k]| ensures GoesFirst(keys, (order + [k])[i], (order + [k])[j]) {
      assert (order + [k])[i] == order[i] && order[i] in order;
      if j < |order| {
        assert (order + [k])[j] == order[j];
      }
    }
  }

  /** Inserting a key that is younger than all the others. */
  lemma {:induction false} InsertRanks(keys: seq<Key>, k: Key, order: seq<Key>)
    requires Ranked(keys, order) && forall x | x in order :: Earlier(keys, x, k)
    ensures Ranked(keys, InsertBySize(k, order))
  {
    if order == [] {
    } else {
      var n := |order| - 1;
      var front, last := order[..n], order[n];
      assert order == front + [last] && last in order;
      assert forall x | x in front :: exists i :: 0 <= i < n && order[i] == x;
      assert forall x | x in front :: GoesFirst(keys, x, last);
      if |last| <= |k| {
        RankedExtend(keys, order, k);
      } else {
        assert Ranked(keys, front);
        InsertRanks(keys, k, front);
        InsertAddsKey(k, front);
        forall x | x in InsertBySize(k, front) ensures GoesFirst(keys, x, last) {
          assert x in multiset(InsertBySize(k, front));
          assert x == k || x in front;
        }
        RankedExtend(keys, InsertBySize(k, front), last);
      }
    }
  }

  /** The sort is stable. */
  lemma {:induction false} SortRanks(keys: seq<Key>)
    ensures Ranked(keys, SortBySize(keys))
  {
    if keys != [] {
      var n := |keys| - 1;
      var front, k := keys[..n], keys[n];
      assert keys == front + [k];
      SortRanks(front);
      SortBySizeSorts(front);
      RankedLonger(front, k, SortBySize(front));
      forall x | x in SortBySize(front) ensures Earlier(keys, x, k) {
        assert x in multiset(SortBySize(front));
        EarlierThanLast(front, k, x);
      }
      InsertRanks(keys, k, SortBySize(front));
    }
  }

  ghost function KeysOf(batch: Batch): seq<Key> {
    seq(|batch|, i requires 0 <= i < |batch| => batch[i].serials)
  }

  /** A batch serves keys in search order, each at most once. */
  lemma {:induction false} FillRanks(keys: seq<Key>, q: EvalQueues, order: seq<Key>, b: int)
    requires {} !in order && Ranked(keys, order)
    ensures Ranked(keys, KeysOf(FillAll(q, order, b).batch))
    ensures forall k | k in KeysOf(FillAll(q, order, b).batch) :: k in order
  {
    if order != [] {
      var n := |order| - 1;
      var front, last := order[..n], order[n];
      assert order == front + [last];
      assert forall x | x in front :: exists i :: 0 <= i < n && order[i] == x;
      assert forall x | x in front :: GoesFirst(keys, x, last);
      FillRanks(keys, q, front, b);
      FillOneAdds(FillAll(q, front, b), last, b);
      hide FillOne, FillAll;
      RankedExtend(keys, KeysOf(FillAll(q, front, b).batch), last);
    }
  }

  lemma FillOneAdds(st: Filling, k: Key, b: int)
    requires k != {}
    ensures var keys := KeysOf(FillOne(st, k, b).batch);
            keys == KeysOf(st.batch) || keys == KeysOf(st.batch) + [k]
  {
  }

  /** `__next__` serves smaller sets first and, among sets of equal size, older ones first. */
  lemma BatchRanks(q: EvalQueues, b: int)
    requires GoodQueues(q)
    ensures Ranked(q.order, KeysOf(NextBatch(q, b).batch))
  {
    var visible, order := Visible(q), SearchOrder(q);
    SortRanks(visible);
    forall i, j | 0 <= i < j < |order| ensures GoesFirst(q.order, order[i], order[j]) {
      assert GoesFirst(visible, order[i], order[j]);
      if |order[i]| == |order[j]| {
        var x, y :| 0 <= x < y < |visible| && visible[x] == order[i] && visible[y] == order[j];
        assert q.order[x] == order[i] && q.order[y] == order[j];
      }
    }
    FillRanks(q.order, q, order, b);
  }
}
