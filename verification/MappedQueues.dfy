/** An insertion-ordered dictionary of lists (src/icefarm/utils/utils.py), and `batch`, the
    round-robin splitter beside it. */
module MappedQueuesModel {
  import opened Sequences

  /** The value of a `MappedQueues`: its keys in insertion order, and the list under each key. */
  datatype Queues<K, V> = Queues(order: seq<K>, state: map<K, seq<V>>)

  ghost predicate WellFormed<K, V>(q: Queues<K, V>) {
    && NoDuplicates(q.order)
    && (forall k | k in q.order :: k in q.state)
    && (forall k | k in q.state :: k in q.order)
  }

  function EmptyQueues<K, V>(): Queues<K, V> {
    Queues([], map[])
  }

  /** The list under `k`; a missing key reads as an empty list. */
  function ListAt<K, V>(state: map<K, seq<V>>, k: K): seq<V> {
    if k in state then state[k] else []
  }

  function Get<K, V>(q: Queues<K, V>, k: K): seq<V> {
    ListAt(q.state, k)
  }

  function Appended<K, V>(q: Queues<K, V>, k: K, v: V): Queues<K, V> {
    Queues(if k in q.state then q.order else q.order + [k], q.state[k := Get(q, k) + [v]])
  }

  /** How many items `pop(key, amount)` takes from the list `l`. */
  function PopCount<V>(l: seq<V>, amount: int): nat {
    if amount <= 0 then 0 else if amount < |l| then amount else |l|
  }

  /** Items come off the end of the list, last one first. */
  function PoppedItems<V>(l: seq<V>, amount: int): seq<V> {
    seq(PopCount(l, amount), i requires 0 <= i < PopCount(l, amount) => l[|l| - 1 - i])
  }

  function AfterPop<K, V>(q: Queues<K, V>, k: K, amount: int): Queues<K, V> {
    if k in q.state
    then q.(state := q.state[k := q.state[k][..|q.state[k]| - PopCount(q.state[k], amount)]])
    else q
  }

  /** What iteration yields: the keys up to, not including, the first one with an empty list. */
  function VisibleFrom<K, V>(order: seq<K>, state: map<K, seq<V>>): (keys: seq<K>)
    ensures keys <= order
    ensures forall k | k in keys :: ListAt(state, k) != []
    ensures |keys| < |order| ==> ListAt(state, order[|keys|]) == []
  {
    if order == [] || ListAt(state, order[0]) == [] then []
    else [order[0]] + VisibleFrom(order[1..], state)
  }

  lemma {:induction false} VisibleUnique<K, V>(order: seq<K>, state: map<K, seq<V>>, keys: seq<K>)
    requires keys <= order && forall k | k in keys :: ListAt(state, k) != []
    requires |keys| < |order| ==> ListAt(state, order[|keys|]) == []
    ensures keys == VisibleFrom(order, state)
  {
    if keys != [] {
      assert keys[0] in keys;
      VisibleUnique(order[1..], state, keys[1..]);
    }
  }

  /** Emptying lists can only shorten what iteration yields. */
  lemma {:induction false} VisibleMonotone<K, V>(order: seq<K>, state: map<K, seq<V>>, state': map<K, seq<V>>)
    requires forall k | k in order :: ListAt(state, k) == [] ==> ListAt(state', k) == []
    ensures VisibleFrom(order, state') <= VisibleFrom(order, state)
  {
    if order != [] {
      VisibleMonotone(order[1..], state, state');
    }
  }

  ghost function Visible<K, V>(q: Queues<K, V>): seq<K> {
    VisibleFrom(q.order, q.state)
  }

  /** Iteration yields every key with a non-empty list exactly when no empty list precedes a
      non-empty one in insertion order. */
  lemma VisibleIsComplete<K, V>(q: Queues<K, V>)
    requires WellFormed(q)
    ensures (forall k | k in q.order && Get(q, k) != [] :: k in Visible(q))
       <==> (forall i, j | 0 <= i < j < |q.order| :: Get(q, q.order[j]) != [] ==> Get(q, q.order[i]) != [])
  {
    hide VisibleFrom;
    var v := Visible(q);
    assert forall x | 0 <= x < |v| :: q.order[x] == v[x] && v[x] in v;
    if forall k | k in q.order && Get(q, k) != [] :: k in v {
      forall i, j | 0 <= i < j < |q.order| && Get(q, q.order[j]) != [] ensures Get(q, q.order[i]) != [] {
        assert q.order[j] in v;
        var x :| 0 <= x < |v| && v[x] == q.order[j];
        assert x == j && q.order[i] == v[i];
      }
    } else {
      var k :| k in q.order && Get(q, k) != [] && k !in v;
      var j :| 0 <= j < |q.order| && q.order[j] == k;
      assert |v| < j && Get(q, q.order[|v|]) == [];
    }
  }

  /** All items held, over every key. */
  ghost function ContentsFrom<K, V>(order: seq<K>, state: map<K, seq<V>>): multiset<V> {
    if order == [] then multiset{} else multiset(ListAt(state, order[0])) + ContentsFrom(order[1..], state)
  }

  ghost function Contents<K, V>(q: Queues<K, V>): multiset<V> {
    ContentsFrom(q.order, q.state)
  }

  /** Replacing the list of one key changes the contents by exactly that list. */
  lemma {:induction false} ContentsReplace<K, V>(order: seq<K>, state: map<K, seq<V>>, k: K, l: seq<V>)
    requires NoDuplicates(order)
    ensures k in order ==>
              ContentsFrom(order, state[k := l]) + multiset(ListAt(state, k)) ==
              ContentsFrom(order, state) + multiset(l)
    ensures k !in order ==> ContentsFrom(order, state[k := l]) == ContentsFrom(order, state)
  {
    if order != [] {
      ContentsReplace(order[1..], state, k, l);
      assert order[0] !in order[1..];
      var head := multiset(ListAt(state, order[0]));
      var tail, tail' := ContentsFrom(order[1..], state), ContentsFrom(order[1..], state[k := l]);
      if order[0] == k {
        assert (multiset(l) + tail) + head == (head + tail) + multiset(l);
      } else {
        assert (head + tail') + multiset(ListAt(state, k)) == head + (tail' + multiset(ListAt(state, k)));
        assert (head + tail) + multiset(l) == head + (tail + multiset(l));
      }
    }
  }

  lemma {:induction false} ContentsExtend<K, V>(order: seq<K>, state: map<K, seq<V>>, k: K, l: seq<V>)
    requires k !in order
    ensures ContentsFrom(order + [k], state[k := l]) == ContentsFrom(order, state) + multiset(l)
  {
    if order == [] {
      assert ([k])[1..] == [];
    } else {
      assert (order + [k])[1..] == order[1..] + [k];
      ContentsExtend(order[1..], state, k, l);
    }
  }

  lemma Cancel<T>(a: multiset<T>, b: multiset<T>, c: multiset<T>)
    requires a + c == b + c
    ensures a == b
  {
    assert a == (a + c) - c;
    assert b == (b + c) - c;
  }

  lemma AppendedContents<K, V>(q: Queues<K, V>, k: K, v: V)
    requires WellFormed(q)
    ensures WellFormed(Appended(q, k, v))
    ensures Contents(Appended(q, k, v)) == Contents(q) + multiset{v}
  {
    if k in q.state {
      ContentsReplace(q.order, q.state, k, q.state[k] + [v]);
      Cancel(Contents(Appended(q, k, v)), Contents(q) + multiset{v}, multiset(q.state[k]));
    } else {
      assert [] + [v] == [v];
      ContentsExtend(q.order, q.state, k, [v]);
    }
  }

  lemma PopReplaces<K, V>(q: Queues<K, V>, k: K, rest: seq<V>)
    requires WellFormed(q) && k in q.state
    ensures Contents(q.(state := q.state[k := rest])) + multiset(q.state[k]) == Contents(q) + multiset(rest)
  {
    ContentsReplace(q.order, q.state, k, rest);
  }

  /** A pop moves items out of the queue; nothing is lost or copied. */
  lemma PopConserves<K, V>(q: Queues<K, V>, k: K, amount: int)
    requires WellFormed(q) && k in q.state
    ensures WellFormed(AfterPop(q, k, amount))
    ensures Contents(q) == Contents(AfterPop(q, k, amount)) + multiset(PoppedItems(q.state[k], amount))
  {
    hide Contents, PoppedItems;
    var l := q.state[k];
    var rest := l[..|l| - PopCount(l, amount)];
    PopReplaces(q, k, rest);
    PoppedIsReversedTail(l, amount);
    Uncover(Contents(q), Contents(AfterPop(q, k, amount)), multiset(rest), multiset(PoppedItems(l, amount)));
  }

  lemma Uncover<T>(before: multiset<T>, after: multiset<T>, rest: multiset<T>, popped: multiset<T>)
    requires after + (rest + popped) == before + rest
    ensures before == after + popped
  {
    assert after + (rest + popped) == (after + popped) + rest;
    Cancel(before, after + popped, rest);
  }

  lemma {:induction false} PoppedIsReversedTail<V>(l: seq<V>, amount: int)
    ensures multiset(l) == multiset(l[..|l| - PopCount(l, amount)]) + multiset(PoppedItems(l, amount))
    decreases PopCount(l, amount)
  {
    var n := PopCount(l, amount);
    if n == 0 {
      assert l[..|l|] == l && PoppedItems(l, amount) == [];
    } else {
      var shorter := l[..|l| - 1];
      PoppedIsReversedTail(shorter, n - 1);
      assert PopCount(shorter, n - 1) == n - 1;
      assert l == shorter + [l[|l| - 1]];
      assert shorter[..|shorter| - (n - 1)] == l[..|l| - n];
      assert PoppedItems(l, amount) == [l[|l| - 1]] + PoppedItems(shorter, n - 1);
    }
  }

  /** The mutable dictionary itself. */
  class MappedQueues<K(==), V> {
    var order: seq<K>
    var state: map<K, seq<V>>

    ghost function View(): Queues<K, V>
      reads this
    {
      Queues(order, state)
    }

    ghost predicate Valid()
      reads this
    {
      WellFormed(View())
    }

    constructor ()
      ensures Valid() && View() == EmptyQueues()
    {
      order, state := [], map[];
    }

    method Append(key: K, value: V)
      requires Valid()
      modifies this
      ensures Valid() && View() == Appended(old(View()), key, value)
      ensures order == if key in old(state) then old(order) else old(order) + [key]
      ensures state == old(state)[key := (if key in old(state) then old(state)[key] else []) + [value]]
    {
      if key !in state {
        order := order + [key];
        state := state[key := []];
      }
      state := state[key := state[key] + [value]];
    }

    method Pop(key: K, amount: int) returns (out: seq<V>)
      requires Valid()
      modifies this
      ensures Valid() && View() == AfterPop(old(View()), key, amount)
      ensures out == PoppedItems(Get(old(View()), key), amount)
      ensures var l := if key in old(state) then old(state)[key] else [];
              && |out| == (if amount <= 0 then 0 else if amount < |l| then amount else |l|)
              && (forall i | 0 <= i < |out| :: out[i] == l[|l| - 1 - i])
              && state == (if key in old(state) then old(state)[key := l[..|l| - |out|]] else old(state))
      ensures order == old(order)
    {
      out := [];
      ghost var l := Get(View(), key);
      assert l[..|l|] == l && (key in state ==> state[key := l] == state);
      var i := 0;
      while i < amount
        invariant 0 <= i <= |l| && (amount <= 0 ==> i == 0) && (0 < amount ==> i <= amount)
        invariant order == old(order)
        invariant state == if key in old(state) then old(state)[key := l[..|l| - i]] else old(state)
        invariant out == seq(i, j requires 0 <= j < i => l[|l| - 1 - j])
        decreases amount - i
      {
        if key !in state || state[key] == [] {
          break;
        }
        var list := state[key];
        out := out + [list[|list| - 1]];
        assert list[..|list| - 1] == l[..|l| - (i + 1)];
        state := state[key := list[..|list| - 1]];
        i := i + 1;
      }
      assert i == PopCount(l, amount);
    }

    method Keys() returns (keys: seq<K>)
      requires Valid()
      ensures keys == Visible(View())
    {
      keys := [];
      var i := 0;
      while i < |order| && state[order[i]] != []
        invariant 0 <= i <= |order|
        invariant keys == order[..i]
        invariant forall k | k in keys :: ListAt(state, k) != []
      {
        keys := keys + [order[i]];
        i := i + 1;
      }
      VisibleUnique(order, state, keys);
    }
  }

  /** Every `amount`-th item of `l`, starting with index `from`. */
  function Stride<T>(l: seq<T>, from: nat, amount: nat): seq<T>
    requires amount > 0
    decreases |l| - from
  {
    if from >= |l| then [] else [l[from]] + Stride(l, from + amount, amount)
  }

  lemma {:induction false} StrideExtend<T>(l: seq<T>, x: T, from: nat, amount: nat)
    requires amount > 0
    ensures Stride(l + [x], from, amount) ==
            Stride(l, from, amount) + (if from <= |l| && (|l| - from) % amount == 0 then [x] else [])
    decreases |l| - from
  {
    if from > |l| {
    } else if from == |l| {
      assert Stride(l + [x], from + amount, amount) == [];
    } else {
      StrideExtend(l, x, from + amount, amount);
      if from + amount <= |l| {
        assert (|l| - from) % amount == (|l| - (from + amount)) % amount by {
          ModShift(|l| - from - amount, amount);
        }
      } else {
        assert 0 < |l| - from < amount;
      }
    }
  }

  lemma ModShift(x: nat, m: nat)
    requires m > 0
    ensures (x + m) % m == x % m
  {
    assert x + m == (x / m + 1) * m + x % m;
    DivModUnique(x + m, m, x / m + 1, x % m);
  }

  lemma {:induction false} AtLeast(d: nat, m: nat)
    requires 0 < d
    ensures m <= d * m
    decreases d
  {
    if d == 1 {
      assert d * m == m;
    } else {
      AtLeast(d - 1, m);
      assert d * m == (d - 1) * m + m;
    }
  }

  lemma DivModUnique(x: nat, m: nat, q: nat, r: nat)
    requires m > 0 && r < m && x == q * m + r
    ensures x % m == r && x / m == q
  {
    var d: int := x / m - q;
    assert d * m == r - x % m;
    assert (-d) * m == -(d * m);
    if 0 < d {
      AtLeast(d, m);
    } else if d < 0 {
      AtLeast(-d, m);
    }
  }

  /** Earlier slots get at least as many items as later ones. */
  lemma {:induction false} StrideLengths<T>(l: seq<T>, i: nat, j: nat, amount: nat)
    requires i <= j && amount > 0
    ensures |Stride(l, j, amount)| <= |Stride(l, i, amount)|
    decreases |l| - i
  {
    if j < |l| {
      StrideLengths(l, i + amount, j + amount, amount);
    }
  }

  /** Which items those are. */
  lemma {:induction false} StrideAt<T>(l: seq<T>, from: nat, amount: nat, i: nat)
    requires amount > 0
    ensures i < |Stride(l, from, amount)| <==> from + i * amount < |l|
    ensures i < |Stride(l, from, amount)| ==> Stride(l, from, amount)[i] == l[from + i * amount]
    decreases i
  {
    if i == 0 {
      assert i * amount == 0;
    } else {
      assert i * amount == (i - 1) * amount + amount;
      if from < |l| {
        StrideAt(l, from + amount, amount, i - 1);
      } else {
        assert 0 <= (i - 1) * amount;
      }
    }
  }

  lemma SameSlot(n: nat, j: nat, amount: nat)
    requires j < amount && j <= n
    ensures (n - j) % amount == 0 <==> j == n % amount
  {
    if (n - j) % amount == 0 {
      DivModUnique(n, amount, (n - j) / amount, j);
    } else if j == n % amount {
      DivModUnique(n - j, amount, n / amount, 0);
    }
  }

  /** Dealing `x` as item number `|l|` extends slot `|l| % amount` and no other. */
  lemma {:induction false} DealOne<T>(l: seq<T>, x: T, j: nat, amount: nat)
    requires j < amount
    ensures Stride(l + [x], j, amount) == Stride(l, j, amount) + (if j == |l| % amount then [x] else [])
  {
    StrideExtend(l, x, j, amount);
    if |l| < j {
      DivModUnique(|l|, amount, 0, |l|);
    } else {
      SameSlot(|l|, j, amount);
    }
  }

  /** `batch(l, amount)`: deals the items of `l` to `amount` lists in turn. */
  method Batch<T>(l: seq<T>, amount: nat) returns (batches: seq<seq<T>>)
    requires amount > 0
    ensures |batches| == amount
    ensures forall j | 0 <= j < amount :: batches[j] == Stride(l, j, amount)
  {
    batches := seq(amount, _ => []);
    for i := 0 to |l|
      invariant |batches| == amount
      invariant forall j | 0 <= j < amount :: batches[j] == Stride(l[..i], j, amount)
    {
      assert l[..i + 1] == l[..i] + [l[i]];
      forall j | 0 <= j < amount
        ensures Stride(l[..i + 1], j, amount) ==
                Stride(l[..i], j, amount) + (if j == i % amount then [l[i]] else [])
      {
        DealOne(l[..i], l[i], j, amount);
      }
      batches := batches[i % amount := batches[i % amount] + [l[i]]];
    }
    assert l[..|l|] == l;
  }
}
