/** Result accounting of a batch factory (src/icefarm/client/lib/BatchClient.py). The sender, the
    receiver, the watchdog and the consumer each act while holding `result_cv`; one such stretch is
    one atomic step here. */
module BatchFactoryModel {
  import opened MappedQueuesModel
  import opened EvaluationBundleModel

  /** One evaluation on one device. */
  type Pair = (Serial, Id)

  datatype Outcome = Value(result: string) | EvaluationFailed
  datatype Result = Result(serial: Serial, id: Id, outcome: Outcome)

  /** QuickBatchFactory, PatientBatchFactory, BalancedBatchFactory. */
  datatype Policy = Quick | Patient | Balanced(target: int)

  /** The fields guarded by `result_cv`. */
  datatype Accounts = Accounts(
    awaiting: map<Serial, set<Id>>,
    lastResult: map<Serial, int>,
    results: seq<Result>,
    broken: set<Serial>)

  function AwaitedIds(awaiting: map<Serial, set<Id>>, s: Serial): set<Id> {
    if s in awaiting then awaiting[s] else {}
  }

  // ---------------------------------------------------------------- the operations on values

  /** `processResult`: only a result that is awaited is kept. */
  function Processed(a: Accounts, s: Serial, id: Id, o: Outcome, now: int): Accounts {
    if id in AwaitedIds(a.awaiting, s)
    then a.(awaiting := a.awaiting[s := a.awaiting[s] - {id}],
            lastResult := a.lastResult[s := now],
            results := a.results + [Result(s, id, o)])
    else a
  }

  /** Failing a list of pairs, one `processResult` each. */
  function FailAll(a: Accounts, pairs: seq<Pair>, now: int): Accounts {
    if pairs == [] then a
    else
      var p := pairs[|pairs| - 1];
      Processed(FailAll(a, pairs[..|pairs| - 1], now), p.0, p.1, EvaluationFailed, now)
  }

  ghost function SerialsOf(batch: Batch): set<Serial> {
    set g, s | g in batch && s in g.serials :: s
  }

  ghost function GroupPairs(serials: Key, evals: seq<Evaluation>): set<Pair> {
    set s, e | s in serials && e in evals :: (s, e.id)
  }

  ghost function PairsOf(batch: Batch): set<Pair> {
    set g, s, e | g in batch && s in g.serials && e in g.evals :: (s, e.id)
  }

  ghost function IdsAt(pairs: set<Pair>, s: Serial): set<Id> {
    set p | p in pairs && p.0 == s :: p.1
  }

  ghost function AwaitPairs(awaiting: map<Serial, set<Id>>, serials: set<Serial>, pairs: set<Pair>)
    : map<Serial, set<Id>>
  {
    map s | s in awaiting.Keys + serials :: AwaitedIds(awaiting, s) + IdsAt(pairs, s)
  }

  /** Registering `pairs`, whose devices are `serials`: they become awaited, and a device not heard
      of before starts its silence now. */
  ghost function RegisterPairs(a: Accounts, serials: set<Serial>, pairs: set<Pair>, now: int): Accounts {
    a.(awaiting := AwaitPairs(a.awaiting, serials, pairs), lastResult := Clocks(a, serials, now))
  }

  /** Times of last result, with `now` for the devices of `serials` not heard of before. */
  function Clocks(a: Accounts, serials: set<Serial>, now: int): map<Serial, int> {
    map s | s in a.lastResult.Keys + (serials - a.awaiting.Keys) ::
      if s in serials - a.awaiting.Keys then now else a.lastResult[s]
  }

  /** The first half of `_addBatch`. */
  ghost function Registered(a: Accounts, batch: Batch, now: int): Accounts {
    RegisterPairs(a, SerialsOf(batch), PairsOf(batch), now)
  }

  /** The pairs whose device is known to be broken, in some order. */
  ghost predicate ListsBad(bad: seq<Pair>, pairs: set<Pair>, broken: set<Serial>) {
    forall p :: p in bad <==> p in pairs && p.0 in broken
  }

  /** What the watchdog calls expired: awaiting something, silent too long, not yet broken. */
  ghost predicate NewlyExpired(a: Accounts, s: Serial, timeout: int, now: int) {
    && AwaitedIds(a.awaiting, s) != {}
    && s in a.lastResult && a.lastResult[s] + timeout < now
    && s !in a.broken
  }

  ghost predicate ListsAwaited(listed: seq<Pair>, awaiting: map<Serial, set<Id>>, serials: set<Serial>) {
    forall p :: p in listed <==> p.0 in serials && p.1 in AwaitedIds(awaiting, p.0)
  }

  predicate NothingAwaited(awaiting: map<Serial, set<Id>>) {
    forall s | s in awaiting :: awaiting[s] == {}
  }

  ghost predicate Highest(awaiting: map<Serial, set<Id>>, h: nat) {
    && (exists s | s in awaiting :: |awaiting[s]| == h)
    && (forall s | s in awaiting :: |awaiting[s]| <= h)
  }

  /** `_readyForBatch`. */
  ghost predicate Ready(policy: Policy, awaiting: map<Serial, set<Id>>, b: int)
    requires 0 < b
  {
    match policy
    case Quick => true
    case Patient => NothingAwaited(awaiting)
    case Balanced(target) =>
      NothingAwaited(awaiting) || forall h: nat | Highest(awaiting, h) :: target - h / b != 0
  }

  lemma NothingMeansZero(awaiting: map<Serial, set<Id>>, s: Serial)
    requires NothingAwaited(awaiting)
    ensures AwaitedIds(awaiting, s) == {}
  {
  }

  lemma HighestExists(awaiting: map<Serial, set<Id>>, keys: set<Serial>) returns (h: nat)
    requires keys != {} && keys <= awaiting.Keys
    ensures exists s | s in keys :: |awaiting[s]| == h
    ensures forall s | s in keys :: |awaiting[s]| <= h
    decreases |keys|
  {
    var s :| s in keys;
    h := |awaiting[s]|;
    if keys != {s} {
      assert keys == keys - {s} + {s};
      var h' := HighestExists(awaiting, keys - {s});
      if h < h' { h := h'; }
    }
  }

  /** With the bound, `target - batches` is never negative, so its truth is `batches < target`. */
  lemma BatchesBelow(target: int, h: nat, b: int)
    requires 0 < b && h < (target + 1) * b
    ensures 0 <= target - h / b
    ensures target - h / b != 0 <==> h < target * b
  {
    var k := h / b;
    assert k * b <= h < (k + 1) * b;
    if target < k {
      TimesAtMost(target + 1, k, b);
    }
    if k < target {
      TimesAtMost(k + 1, target, b);
    }
  }

  lemma BatchesEqual(target: int, h: nat, b: int)
    requires 0 < b && 0 < target
    ensures target - h / b == 0 <==> target * b <= h < (target + 1) * b
  {
    var k := h / b;
    assert k * b <= h < (k + 1) * b;
    if target < k {
      TimesAtMost(target + 1, k, b);
    }
    if k < target {
      TimesAtMost(k + 1, target, b);
    }
  }

  lemma TimesAtMost(x: int, y: int, b: int)
    requires 0 <= b && x <= y
    ensures x * b <= y * b
  {
    assert (y - x) * b >= 0;
  }

  /** The patient factory is ready if and only if no device owes a result. */
  lemma PatientReadyIff(awaiting: map<Serial, set<Id>>, b: int)
    requires 0 < b
    ensures Ready(Patient, awaiting, b) <==> forall s, id :: id !in AwaitedIds(awaiting, s)
  {
    if Ready(Patient, awaiting, b) {
      forall s, id ensures id !in AwaitedIds(awaiting, s) {
        NothingMeansZero(awaiting, s);
      }
    } else {
      var s :| s in awaiting && awaiting[s] != {};
      var id :| id in awaiting[s];
      assert id in AwaitedIds(awaiting, s);
    }
  }

  /** The balanced factory is ready if and only if every device owes less than `target` batches; or one
      owes more than `target` of them, which its own restraint rules out. */
  lemma BalancedReadyIff(target: int, awaiting: map<Serial, set<Id>>, b: int)
    requires 0 < b && 0 < target
    ensures Ready(Balanced(target), awaiting, b) <==>
            || (forall s | s in awaiting :: |awaiting[s]| < target * b)
            || (exists s | s in awaiting :: (target + 1) * b <= |awaiting[s]|)
  {
    if NothingAwaited(awaiting) {
      TimesAtMost(1, target, b);
    } else {
      var h := HighestExists(awaiting, awaiting.Keys);
      assert Highest(awaiting, h);
      assert forall k: nat | Highest(awaiting, k) :: k == h;
      BatchesEqual(target, h, b);
    }
  }

  // ---------------------------------------------------------------- the object

  class BatchFactory {
    const policy: Policy
    const batchSize: int
    const timeout: int
    var awaiting: map<Serial, set<Id>>
    var lastResult: map<Serial, int>
    var results: seq<Result>
    var broken: set<Serial>

    ghost function View(): Accounts
      reads this
    {
      Accounts(awaiting, lastResult, results, broken)
    }

    constructor (policy: Policy, batchSize: int, timeout: int)
      ensures View() == Accounts(map[], map[], [], {})
      ensures this.policy == policy && this.batchSize == batchSize && this.timeout == timeout
    {
      this.policy, this.batchSize, this.timeout := policy, batchSize, timeout;
      awaiting, lastResult, results, broken := map[], map[], [], {};
    }

    method ProcessResult(serial: Serial, id: Id, outcome: Outcome, now: int)
      modifies this
      ensures View() == Processed(old(View()), serial, id, outcome, now)
      ensures results == if id in AwaitedIds(old(awaiting), serial) then old(results) + [Result(serial, id, outcome)]
                         else old(results)
      ensures forall s, i :: i in AwaitedIds(awaiting, s) <==>
                               i in AwaitedIds(old(awaiting), s) && !(s == serial && i == id)
    {
      if serial !in awaiting {
        return;
      }
      if id !in awaiting[serial] {
        return;
      }
      awaiting := awaiting[serial := awaiting[serial] - {id}];
      lastResult := lastResult[serial := now];
      results := results + [Result(serial, id, outcome)];
    }

    /** `_addBatch`; `bad` is the local list `bad_results`. */
    method AddBatch(batch: Batch, now: int) returns (bad: seq<Pair>)
      modifies this
      ensures ListsBad(bad, PairsOf(batch), old(broken))
      ensures View() == FailAll(Registered(old(View()), batch, now), bad, now)
    {
      bad := [];
      ghost var a := View();
      ghost var serials: set<Serial>, pairs: set<Pair> := {}, {};
      RegisterNothing(a, now);
      for i := 0 to |batch|
        invariant serials == SerialsOf(batch[..i]) && pairs == PairsOf(batch[..i])
        invariant View() == RegisterPairs(a, serials, pairs, now)
        invariant ListsBad(bad, pairs, a.broken)
        invariant forall p | p in pairs :: p.0 in serials
      {
        assert batch[..i + 1] == batch[..i] + [batch[i]];
        BatchSnoc(batch[..i], batch[i]);
        var more := AddGroupOf(batch[i], a, serials, pairs, now);
        ListsBadJoin(bad, more, pairs, GroupPairs(batch[i].serials, batch[i].evals), a.broken);
        bad := bad + more;
        serials, pairs := serials + batch[i].serials, pairs + GroupPairs(batch[i].serials, batch[i].evals);
      }
      assert batch[..|batch|] == batch;
      ghost var before := View();
      for i := 0 to |bad|
        invariant View() == FailAll(before, bad[..i], now)
      {
        assert bad[..i + 1][..i] == bad[..i];
        ProcessResult(bad[i].0, bad[i].1, EvaluationFailed, now);
      }
      assert bad[..|bad|] == bad;
    }

    /** The loop of `_addBatch` over the serials of one entry. */
    method AddGroupOf(g: Group, ghost a: Accounts, ghost serials: set<Serial>, ghost pairs: set<Pair>, now: int)
      returns (bad: seq<Pair>)
      requires View() == RegisterPairs(a, serials, pairs, now)
      requires forall p | p in pairs :: p.0 in serials
      modifies this`awaiting, this`lastResult
      ensures View() == RegisterPairs(a, serials + g.serials, pairs + GroupPairs(g.serials, g.evals), now)
      ensures ListsBad(bad, GroupPairs(g.serials, g.evals), broken)
    {
      hide RegisterPairs, GroupPairs, ListsBad;
      bad := [];
      var rest := g.serials;
      ghost var seen: set<Serial> := {};
      NoPairs(g.evals, broken);
      assert serials + seen == serials && pairs + {} == pairs;
      while rest != {}
        invariant seen == g.serials - rest && rest <= g.serials
        invariant View() == RegisterPairs(a, serials + seen, pairs + GroupPairs(seen, g.evals), now)
        invariant ListsBad(bad, GroupPairs(seen, g.evals), broken)
        decreases |rest|
      {
        var s :| s in rest;
        rest := rest - {s};
        AddSerial(s, g.evals, now);
        var more := [];
        if s in broken {
          more := seq(|g.evals|, j requires 0 <= j < |g.evals| => (s, g.evals[j].id));
        }
        GroupSerials(seen, g.evals);
        RegisterOne(a, serials + seen, pairs + GroupPairs(seen, g.evals), s, g.evals, now);
        GroupPairsSnoc(seen, s, g.evals);
        BadOfSerial(more, s, g.evals, broken);
        ListsBadJoin(bad, more, GroupPairs(seen, g.evals), GroupPairs({s}, g.evals), broken);
        bad := bad + more;
        assert serials + seen + {s} == serials + (seen + {s});
        assert pairs + GroupPairs(seen, g.evals) + GroupPairs({s}, g.evals) ==
               pairs + GroupPairs(seen + {s}, g.evals);
        seen := seen + {s};
      }
      assert seen == g.serials;
    }

    /** The loop body of `_addBatch` for one serial. */
    method AddSerial(s: Serial, evals: seq<Evaluation>, now: int)
      modifies this`awaiting, this`lastResult
      ensures awaiting == old(awaiting)[s := AwaitedIds(old(awaiting), s) + (set e | e in evals :: e.id)]
      ensures lastResult == if s in old(awaiting) then old(lastResult) else old(lastResult)[s := now]
    {
      if s !in awaiting {
        lastResult := lastResult[s := now];
      }
      if s !in awaiting {
        awaiting := awaiting[s := {}];
      }
      awaiting := awaiting[s := awaiting[s] + (set e | e in evals :: e.id)];
    }

    method ReadyForBatch() returns (ready: bool)
      requires 0 < batchSize
      ensures ready <==> Ready(policy, awaiting, batchSize)
      ensures policy.Quick? ==> ready
      ensures policy.Patient? ==> (ready <==> forall s, id :: id !in AwaitedIds(awaiting, s))
      ensures policy.Balanced? && 0 < policy.target ==>
                (ready <==> || (forall s | s in awaiting :: |awaiting[s]| < policy.target * batchSize)
                            || (exists s | s in awaiting :: (policy.target + 1) * batchSize <= |awaiting[s]|))
    {
      PatientReadyIff(awaiting, batchSize);
      if policy.Balanced? && 0 < policy.target {
        BalancedReadyIff(policy.target, awaiting, batchSize);
      }
      match policy {
        case Quick => ready := true;
        case Patient => ready := forall s | s in awaiting :: awaiting[s] == {};
        case Balanced(target) =>
          if forall s | s in awaiting :: awaiting[s] == {} {
            return true;
          }
          var highest := HighestQueued();
          ready := target - highest / batchSize != 0;
      }
    }

    /** `max(map(len, self.awaiting_results.values()))`. */
    method HighestQueued() returns (highest: nat)
      requires awaiting.Keys != {}
      ensures Highest(awaiting, highest)
    {
      var first :| first in awaiting.Keys;
      highest := |awaiting[first]|;
      var rest := awaiting.Keys - {first};
      while rest != {}
        invariant rest <= awaiting.Keys
        invariant exists s | s in awaiting :: |awaiting[s]| == highest
        invariant forall s | s in awaiting.Keys - rest :: |awaiting[s]| <= highest
        decreases |rest|
      {
        var s :| s in rest;
        if highest < |awaiting[s]| {
          highest := |awaiting[s]|;
        }
        rest := rest - {s};
      }
    }

    /** The locked part of the watchdog. `dead` are the serials whose reboot failed; it returns the
        evaluations to be failed after the lock is released. */
    method Scan(dead: set<Serial>, now: int) returns (listed: seq<Pair>)
      requires forall s | s in dead :: NewlyExpired(View(), s, timeout, now)
      modifies this`broken
      ensures View() == old(View()).(broken := old(broken) + dead)
      ensures ListsAwaited(listed, awaiting, dead)
    {
      hide NewlyExpired, ListsAwaited;
      listed := [];
      NoneAwaited(awaiting);
      var rest := dead;
      ghost var seen: set<Serial> := {};
      while rest != {}
        invariant seen == dead - rest && rest <= dead && broken == old(broken) + seen
        invariant ListsAwaited(listed, awaiting, seen)
        decreases |rest|
      {
        var s :| s in rest;
        rest := rest - {s};
        broken := broken + {s};
        var ids := ListIds(s);
        ListsAwaitedJoin(listed, ids, awaiting, seen, s);
        listed := listed + ids;
        seen := seen + {s};
      }
      assert seen == dead;
    }

    method ListIds(s: Serial) returns (pairs: seq<Pair>)
      ensures forall p :: p in pairs <==> p.0 == s && p.1 in AwaitedIds(awaiting, s)
    {
      pairs := [];
      var all := if s in awaiting then awaiting[s] else {};
      var rest := all;
      while rest != {}
        invariant rest <= all
        invariant forall p :: p in pairs <==> p.0 == s && p.1 in all - rest
        decreases |rest|
      {
        var id :| id in rest;
        pairs := pairs + [(s, id)];
        rest := rest - {id};
      }
    }

    /** One turn of `getResults` once results are there: drained them all, and tells whether the
        iteration is over. */
    method Drain(bundleEmpty: bool) returns (drained: seq<Result>, finished: bool)
      modifies this`results
      ensures drained == old(results) && View() == old(View()).(results := [])
      ensures finished <==> bundleEmpty && NothingAwaited(awaiting)
      ensures finished <==> bundleEmpty && forall s, id :: id !in AwaitedIds(awaiting, s)
    {
      PatientReadyIff(awaiting, 1);
      drained := results;
      results := [];
      finished := bundleEmpty && forall s | s in awaiting :: awaiting[s] == {};
    }
  }

  lemma ListsAwaitedJoin(listed: seq<Pair>, ids: seq<Pair>, awaiting: map<Serial, set<Id>>,
                         seen: set<Serial>, s: Serial)
    requires ListsAwaited(listed, awaiting, seen)
    requires forall p :: p in ids <==> p.0 == s && p.1 in AwaitedIds(awaiting, s)
    ensures ListsAwaited(listed + ids, awaiting, seen + {s})
  {
  }

  lemma ListsBadJoin(bad: seq<Pair>, more: seq<Pair>, pairs: set<Pair>, others: set<Pair>, broken: set<Serial>)
    requires ListsBad(bad, pairs, broken) && ListsBad(more, others, broken)
    ensures ListsBad(bad + more, pairs + others, broken)
  {
  }

  lemma BadOfSerial(more: seq<Pair>, s: Serial, evals: seq<Evaluation>, broken: set<Serial>)
    requires more == if s in broken then seq(|evals|, j requires 0 <= j < |evals| => (s, evals[j].id)) else []
    ensures ListsBad(more, GroupPairs({s}, evals), broken)
  {
    GroupPairsSnoc({}, s, evals);
  }

  lemma GroupSerials(serials: Key, evals: seq<Evaluation>)
    ensures forall p | p in GroupPairs(serials, evals) :: p.0 in serials
  {
  }

  lemma NoneAwaited(awaiting: map<Serial, set<Id>>)
    ensures ListsAwaited([], awaiting, {})
  {
  }

  lemma NoPairs(evals: seq<Evaluation>, broken: set<Serial>)
    ensures GroupPairs({}, evals) == {} && ListsBad([], {}, broken)
  {
  }

  lemma RegisterNothing(a: Accounts, now: int)
    ensures RegisterPairs(a, {}, {}, now) == a
  {
    assert forall s :: IdsAt({}, s) == {};
    var r := RegisterPairs(a, {}, {}, now);
    forall s | s in r.awaiting ensures s in a.awaiting && r.awaiting[s] == a.awaiting[s] {
      assert a.awaiting[s] + {} == a.awaiting[s];
    }
    assert r.awaiting == a.awaiting;
    assert r.lastResult == a.lastResult;
  }

  lemma BatchSnoc(batch: Batch, g: Group)
    ensures SerialsOf(batch + [g]) == SerialsOf(batch) + g.serials
    ensures PairsOf(batch + [g]) == PairsOf(batch) + GroupPairs(g.serials, g.evals)
  {
    assert forall h :: h in batch + [g] <==> h in batch || h == g;
  }

  lemma GroupPairsSnoc(serials: Key, s: Serial, evals: seq<Evaluation>)
    ensures GroupPairs(serials + {s}, evals) == GroupPairs(serials, evals) + GroupPairs({s}, evals)
    ensures forall p :: p in GroupPairs({s}, evals) <==>
              p in seq(|evals|, j requires 0 <= j < |evals| => (s, evals[j].id))
  {
    var listed := seq(|evals|, j requires 0 <= j < |evals| => (s, evals[j].id));
    forall p ensures p in GroupPairs({s}, evals) <==> p in listed {
      if p in GroupPairs({s}, evals) {
        var e :| e in evals && p == (s, e.id);
        var j :| 0 <= j < |evals| && evals[j] == e;
        assert listed[j] == p;
      }
    }
  }

  lemma RegisterOne(a: Accounts, serials: set<Serial>, pairs: set<Pair>, s: Serial, evals: seq<Evaluation>, now: int)
    requires forall p | p in pairs :: p.0 in serials
    ensures var r := RegisterPairs(a, serials, pairs, now);
            RegisterPairs(a, serials + {s}, pairs + GroupPairs({s}, evals), now) ==
            r.(awaiting := r.awaiting[s := AwaitedIds(r.awaiting, s) + (set e | e in evals :: e.id)],
               lastResult := (if s in r.awaiting then r.lastResult else r.lastResult[s := now]))
  {
    AwaitOne(a.awaiting, serials, pairs, s, evals);
    ClockOne(a, serials, s, now);
    hide IdsAt, GroupPairs, AwaitedIds;
  }

  lemma ClockOne(a: Accounts, serials: set<Serial>, s: Serial, now: int)
    ensures Clocks(a, serials + {s}, now) ==
            if s in a.awaiting.Keys + serials then Clocks(a, serials, now) else Clocks(a, serials, now)[s := now]
  {
  }

  lemma AwaitOne(awaiting: map<Serial, set<Id>>, serials: set<Serial>, pairs: set<Pair>, s: Serial,
                 evals: seq<Evaluation>)
    requires forall p | p in pairs :: p.0 in serials
    ensures var r := AwaitPairs(awaiting, serials, pairs);
            AwaitPairs(awaiting, serials + {s}, pairs + GroupPairs({s}, evals)) ==
            r[s := AwaitedIds(r, s) + (set e | e in evals :: e.id)]
  {
    var ids := set e | e in evals :: e.id;
    var r := AwaitPairs(awaiting, serials, pairs);
    var r' := AwaitPairs(awaiting, serials + {s}, pairs + GroupPairs({s}, evals));
    var w := r[s := AwaitedIds(r, s) + ids];
    assert s !in serials ==> IdsAt(pairs, s) == {};
    hide IdsAt, GroupPairs;
    forall x | x in r' ensures x in w && r'[x] == w[x] {
      IdsOfGroup(pairs, s, evals, x);
      if x == s {
        assert AwaitedIds(awaiting, s) + (IdsAt(pairs, s) + ids) == AwaitedIds(r, s) + ids;
      } else {
        assert IdsAt(pairs, x) + {} == IdsAt(pairs, x);
      }
    }
    assert r'.Keys == w.Keys;
  }

  lemma IdsOfGroup(pairs: set<Pair>, s: Serial, evals: seq<Evaluation>, x: Serial)
    ensures IdsAt(pairs + GroupPairs({s}, evals), x) ==
            IdsAt(pairs, x) + (if x == s then set e | e in evals :: e.id else {})
  {
    forall e | e in evals ensures (s, e.id) in GroupPairs({s}, evals) {
    }
  }

  /** `_evaluateBatch`: one request per evaluation, to its devices that are not broken. */
  method EvaluateBatch(evals: seq<Evaluation>, badSerials: set<Serial>) returns (out: seq<(set<Serial>, Id)>)
    ensures |out| == |evals|
    ensures forall i | 0 <= i < |evals| :: out[i] == (evals[i].serials - badSerials, evals[i].id)
  {
    out := [];
    for i := 0 to |evals|
      invariant |out| == i
      invariant forall j | 0 <= j < i :: out[j] == (evals[j].serials - badSerials, evals[j].id)
    {
      out := out + [(evals[i].serials - badSerials, evals[i].id)];
    }
  }

  /** The (device, evaluation) pairs a list of requests asks the workers for. */
  ghost function Requested(requests: seq<(set<Serial>, Id)>): set<Pair> {
    set r, s | r in requests && s in r.0 :: (s, r.1)
  }

  lemma RequestedOfGroup(g: Group, badSerials: set<Serial>, out: seq<(set<Serial>, Id)>)
    requires forall e | e in g.evals :: e.serials == g.serials
    requires |out| == |g.evals|
    requires forall i | 0 <= i < |g.evals| :: out[i] == (g.evals[i].serials - badSerials, g.evals[i].id)
    ensures Requested(out) == set p | p in GroupPairs(g.serials, g.evals) && p.0 !in badSerials
  {
    forall p ensures p in Requested(out) <==> p in GroupPairs(g.serials, g.evals) && p.0 !in badSerials {
      if p in Requested(out) {
        var r, s :| r in out && s in r.0 && p == (s, r.1);
        var i :| 0 <= i < |out| && out[i] == r;
        assert g.evals[i] in g.evals;
      }
      if p in GroupPairs(g.serials, g.evals) && p.0 !in badSerials {
        var s, e :| s in g.serials && e in g.evals && p == (s, e.id);
        var i :| 0 <= i < |g.evals| && g.evals[i] == e;
        assert out[i] in out && s in out[i].0;
      }
    }
  }

  /** The body of the sender's loop: what it asks for is the batch without the broken devices. */
  method SendBatch(batch: Batch, badSerials: set<Serial>) returns (requests: seq<(set<Serial>, Id)>)
    requires forall g, e | g in batch && e in g.evals :: e.serials == g.serials
    ensures Requested(requests) == set p | p in PairsOf(batch) && p.0 !in badSerials
  {
    requests := [];
    assert PairsOf([]) == {};
    hide GroupPairs, PairsOf;
    for i := 0 to |batch|
      invariant Requested(requests) == set p | p in PairsOf(batch[..i]) && p.0 !in badSerials
    {
      assert batch[..i + 1] == batch[..i] + [batch[i]];
      BatchSnoc(batch[..i], batch[i]);
      var more := EvaluateBatch(batch[i].evals, badSerials);
      RequestedOfGroup(batch[i], badSerials, more);
      assert Requested(requests + more) == Requested(requests) + Requested(more);
      requests := requests + more;
    }
    assert batch[..|batch|] == batch;
  }
}
