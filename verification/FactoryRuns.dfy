/** Every interleaving of the sender, receiver, watchdog and consumer of a batch factory. */
module FactoryRuns {
  import opened Options
  import opened Sequences
  import opened MappedQueuesModel
  import opened EvaluationBundleModel
  import opened BatchFactoryModel

  datatype Config = Config(evals: seq<Evaluation>, b: int, policy: Policy, timeout: int)

  /** Ids come from `uuid4`; sizes are positive. */
  ghost predicate Sane(c: Config) {
    && NonEmptySets(c.evals)
    && (forall i, j | 0 <= i < j < |c.evals| :: c.evals[i].id != c.evals[j].id)
    && 0 < c.b && (c.policy.Balanced? ==> 0 < c.policy.target)
  }

  /** The whole client: the bundle and the batch the sender holds, the guarded accounts, the
      watchdog's list of evaluations still to be failed, and what happened so far. */
  datatype System = System(
    queue: EvalQueues,
    pending: Option<Batch>,
    empty: bool,
    accounts: Accounts,
    handoff: seq<Pair>,
    registered: multiset<Evaluation>,
    sent: set<Pair>,
    failed: set<Pair>,
    yielded: seq<Result>,
    finished: bool)

  datatype Event =
    | TakeBatch(r: Filling)
    | Register(now: int, bad: seq<Pair>)
    | Arrive(serial: Serial, id: Id, value: string, now: int)
    | Scan(now: int, dead: set<Serial>, listed: seq<Pair>)
    | FailListed(now: int)
    | Drain

  ghost predicate Init(c: Config, s: System) {
    s == System(FromEvaluations(c.evals), None, false, Accounts(map[], map[], [], {}), [], multiset{},
                {}, {}, [], false)
  }

  ghost function AfterRegister(s: System, batch: Batch, now: int, bad: seq<Pair>): System {
    var broken := s.accounts.broken;
    s.(pending := None,
       accounts := FailAll(Registered(s.accounts, batch, now), bad, now),
       registered := s.registered + BatchContents(batch),
       sent := s.sent + (set p | p in PairsOf(batch) && p.0 !in broken),
       failed := s.failed + (set p | p in PairsOf(batch) && p.0 in broken))
  }

  ghost predicate Step(c: Config, s: System, ev: Event, s': System)
    requires 0 < c.b
  {
    match ev
    // sender: `for batch in self.bundle`
    case TakeBatch(r) =>
      && !s.empty && s.pending.None? && Packs(s.queue, c.b, r)
      && s' == if r.batch == [] then s.(queue := r.queues, empty := true)
               else s.(queue := r.queues, pending := Some(r.batch))
    // sender, under the lock: `_addBatch`, then the requests, which skip broken serials
    case Register(now, bad) =>
      && s.pending.Some? && Ready(c.policy, s.accounts.awaiting, c.b)
      && ListsBad(bad, PairsOf(s.pending.value), s.accounts.broken)
      && s' == AfterRegister(s, s.pending.value, now, bad)
    // receiver: any result at all may arrive, any number of times
    case Arrive(serial, id, value, now) =>
      s' == s.(accounts := Processed(s.accounts, serial, id, Value(value), now))
    // watchdog, under the lock: the reboot failed for the devices in `dead`
    case Scan(now, dead, listed) =>
      && s.handoff == []
      && (forall x | x in dead :: NewlyExpired(s.accounts, x, c.timeout, now))
      && ListsAwaited(listed, s.accounts.awaiting, dead)
      && s' == s.(accounts := s.accounts.(broken := s.accounts.broken + dead), handoff := listed)
    // watchdog, lock released: one `processResult` at a time
    case FailListed(now) =>
      && s.handoff != []
      && s' == s.(accounts := Processed(s.accounts, s.handoff[0].0, s.handoff[0].1, EvaluationFailed, now),
                  handoff := s.handoff[1..])
    // consumer: one turn of `getResults`
    case Drain =>
      && !s.finished && s.accounts.results != []
      && s' == s.(yielded := s.yielded + s.accounts.results,
                  accounts := s.accounts.(results := []),
                  finished := s.empty && NothingAwaited(s.accounts.awaiting))
  }

  // ---------------------------------------------------------------- the invariant

  ghost predicate Awaits(a: Accounts, p: Pair) {
    p.1 in AwaitedIds(a.awaiting, p.0)
  }

  ghost function PairList(rs: seq<Result>): seq<Pair> {
    seq(|rs|, i requires 0 <= i < |rs| => (rs[i].serial, rs[i].id))
  }

  /** The (device, evaluation) pairs a collection of evaluations asks for. */
  ghost function Dispatched(m: multiset<Evaluation>): set<Pair> {
    set e, s | e in m && s in e.serials :: (s, e.id)
  }

  ghost function Pending(s: System): multiset<Evaluation> {
    match s.pending
    case None => multiset{}
    case Some(batch) => BatchContents(batch)
  }

  ghost predicate GoodBatch(b: int, batch: Batch) {
    && Capped(b, batch)
    && (forall g | g in batch :: g.evals != [])
    && (forall g, e | g in batch && e in g.evals :: e.serials == g.serials)
  }

  /** No evaluation is lost or doubled on its way from the bundle to the devices. */
  ghost predicate Conserved(c: Config, s: System) {
    && GoodQueues(s.queue)
    && (s.pending.Some? ==> GoodBatch(c.b, s.pending.value))
    && Contents(s.queue) + Pending(s) + s.registered == multiset(c.evals)
  }

  /** Every pair of `d` is awaited, or delivered exactly once, and never both. */
  ghost predicate Accounted(d: set<Pair>, a: Accounts, yielded: seq<Result>) {
    && NoDuplicates(PairList(yielded + a.results))
    && forall p :: (p in d <==> Awaits(a, p) || p in PairList(yielded + a.results))
                   && !(Awaits(a, p) && p in PairList(yielded + a.results))
  }

  /** A broken device awaits only what the watchdog has already listed for failure. */
  ghost predicate BrokenListed(s: System) {
    forall p: Pair | p.0 in s.accounts.broken && Awaits(s.accounts, p) :: p in s.handoff
  }

  /** Each dispatched pair was either requested from the worker or failed at once. */
  ghost predicate SentOrFailed(s: System) {
    s.sent !! s.failed && s.sent + s.failed == Dispatched(s.registered)
  }

  ghost predicate DoneRight(s: System) {
    && (s.empty ==> s.pending.None?)
    && (s.finished ==> s.empty && s.accounts.results == [] && NothingAwaited(s.accounts.awaiting))
  }

  /** Every serial that awaits something has a time of last result. */
  ghost predicate Clocked(s: System) {
    s.accounts.awaiting.Keys <= s.accounts.lastResult.Keys
  }

  /** How many results a device may owe. */
  ghost predicate HasRoom(c: Config, a: Accounts) {
    match c.policy
    case Quick => true
    case Patient => forall s | s in a.awaiting :: |a.awaiting[s]| <= c.b
    case Balanced(target) => forall s | s in a.awaiting :: |a.awaiting[s]| < (target + 1) * c.b
  }

  ghost predicate Inv(c: Config, s: System) {
    && Conserved(c, s) && Accounted(Dispatched(s.registered), s.accounts, s.yielded)
    && BrokenListed(s) && SentOrFailed(s) && DoneRight(s) && Clocked(s) && HasRoom(c, s.accounts)
  }

  // ---------------------------------------------------------------- accounts

  lemma ProcessedAccounts(d: set<Pair>, a: Accounts, y: seq<Result>, s: Serial, id: Id, o: Outcome, now: int)
    requires Accounted(d, a, y)
    ensures Accounted(d, Processed(a, s, id, o, now), y)
  {
    if Awaits(a, (s, id)) {
      var a' := Processed(a, s, id, o, now);
      var before, after := PairList(y + a.results), PairList(y + a'.results);
      assert y + a'.results == (y + a.results) + [Result(s, id, o)];
      assert after == before + [(s, id)];
      forall p ensures Awaits(a', p) <==> Awaits(a, p) && p != (s, id) {
      }
    }
  }

  /** What `processResult` may change: it removes awaited ids and leaves the rest alone. */
  ghost predicate Shrinks(a: Accounts, a': Accounts) {
    && a'.broken == a.broken && a'.awaiting.Keys == a.awaiting.Keys
    && a.lastResult.Keys <= a'.lastResult.Keys
    && (forall s | s in a.awaiting :: a'.awaiting[s] <= a.awaiting[s] && |a'.awaiting[s]| <= |a.awaiting[s]|)
  }

  lemma ProcessedShrinks(a: Accounts, s: Serial, id: Id, o: Outcome, now: int)
    ensures Shrinks(a, Processed(a, s, id, o, now))
    ensures !Awaits(Processed(a, s, id, o, now), (s, id))
  {
    if Awaits(a, (s, id)) {
      assert a.awaiting[s] == a.awaiting[s] - {id} + {id};
    }
  }

  lemma {:induction false} FailAllAccounts(d: set<Pair>, a: Accounts, y: seq<Result>, pairs: seq<Pair>, now: int)
    requires Accounted(d, a, y)
    ensures Accounted(d, FailAll(a, pairs, now), y)
    ensures Shrinks(a, FailAll(a, pairs, now))
    ensures forall p | p in pairs :: !Awaits(FailAll(a, pairs, now), p)
  {
    if pairs != [] {
      hide Accounted;
      var front, p := pairs[..|pairs| - 1], pairs[|pairs| - 1];
      FailAllAccounts(d, a, y, front, now);
      ProcessedAccounts(d, FailAll(a, front, now), y, p.0, p.1, EvaluationFailed, now);
      ProcessedShrinks(FailAll(a, front, now), p.0, p.1, EvaluationFailed, now);
    }
  }

  lemma RegisteredAwaits(a: Accounts, batch: Batch, now: int, p: Pair)
    ensures Awaits(Registered(a, batch, now), p) <==> Awaits(a, p) || p in PairsOf(batch)
  {
    if p in PairsOf(batch) {
      assert p.0 in SerialsOf(batch) && p.1 in IdsAt(PairsOf(batch), p.0);
    }
  }

  lemma RegisteredAccounts(d: set<Pair>, a: Accounts, y: seq<Result>, batch: Batch, now: int)
    requires Accounted(d, a, y) && PairsOf(batch) !! d
    ensures Accounted(d + PairsOf(batch), Registered(a, batch, now), y)
  {
    forall p ensures Awaits(Registered(a, batch, now), p) <==> Awaits(a, p) || p in PairsOf(batch) {
      RegisteredAwaits(a, batch, now, p);
    }
    hide Registered, PairsOf, PairList, Awaits;
  }

  // ---------------------------------------------------------------- evaluations and pairs

  lemma {:induction false} PairsOfContents(batch: Batch)
    requires forall g, e | g in batch && e in g.evals :: e.serials == g.serials
    ensures PairsOf(batch) == Dispatched(BatchContents(batch))
  {
    if batch != [] {
      var front, g := batch[..|batch| - 1], batch[|batch| - 1];
      assert batch == front + [g];
      PairsOfContents(front);
      BatchSnoc(front, g);
      forall p ensures p in GroupPairs(g.serials, g.evals) <==> p in Dispatched(multiset(g.evals)) {
        if p in Dispatched(multiset(g.evals)) {
          var e, s :| e in multiset(g.evals) && s in e.serials && p == (s, e.id);
          assert g in batch && e in g.evals;
        }
        if p in GroupPairs(g.serials, g.evals) {
          var s, e :| s in g.serials && e in g.evals && p == (s, e.id);
          assert g in batch && e in multiset(g.evals);
        }
      }
      DispatchedUnion(BatchContents(front), multiset(g.evals));
    }
  }

  lemma DispatchedUnion(x: multiset<Evaluation>, y: multiset<Evaluation>)
    ensures Dispatched(x + y) == Dispatched(x) + Dispatched(y)
  {
  }

  /** Different evaluations of a bundle never ask for the same pair. */
  lemma FreshPairs(evals: seq<Evaluation>, x: multiset<Evaluation>, y: multiset<Evaluation>)
    requires forall i, j | 0 <= i < j < |evals| :: evals[i].id != evals[j].id
    requires x + y <= multiset(evals)
    ensures Dispatched(x) !! Dispatched(y)
  {
    forall p | p in Dispatched(x) ensures p !in Dispatched(y) {
      if p in Dispatched(y) {
        var e, s :| e in x && s in e.serials && p == (s, e.id);
        var e', s' :| e' in y && s' in e'.serials && p == (s', e'.id);
        assert e in multiset(evals) && e' in multiset(evals);
        var i :| 0 <= i < |evals| && evals[i] == e;
        var j :| 0 <= j < |evals| && evals[j] == e';
        assert i == j;
        assert (x + y)[e] >= 2;
        OnceEach(evals);
        assert false;
      }
    }
  }

  // ---------------------------------------------------------------- backpressure

  lemma {:induction false} IdsWithinLoad(batch: Batch, s: Serial)
    ensures |IdsAt(PairsOf(batch), s)| <= Load(batch, s)
  {
    if batch != [] {
      var front, g := batch[..|batch| - 1], batch[|batch| - 1];
      assert batch == front + [g];
      IdsWithinLoad(front, s);
      BatchSnoc(front, g);
      var more := set e | e in g.evals :: e.id;
      IdsInList(g.evals);
      var x, y := IdsAt(PairsOf(front), s), IdsAt(GroupPairs(g.serials, g.evals), s);
      assert IdsAt(PairsOf(batch), s) == x + y;
      UnionSize(x, y);
      assert y <= (if s in g.serials then more else {});
      SubsetSize(y, if s in g.serials then more else {});
    }
  }

  lemma {:induction false} IdsInList(evals: seq<Evaluation>)
    ensures |set e | e in evals :: e.id| <= |evals|
  {
    if evals != [] {
      var front, e := evals[..|evals| - 1], evals[|evals| - 1];
      IdsInList(front);
      assert evals == front + [e];
      assert (set x | x in evals :: x.id) == (set x | x in front :: x.id) + {e.id};
    }
  }

  lemma UnionSize<T>(x: set<T>, y: set<T>)
    ensures |x + y| <= |x| + |y|
  {
    assert x + y == x + (y - x);
    SubsetSize(y - x, y);
  }

  lemma SubsetSize<T>(x: set<T>, y: set<T>)
    requires x <= y
    ensures |x| <= |y|
  {
    assert y == x + (y - x);
  }

  /** When the balanced factory lets a batch through, every device owes less than
      `target` batches. */
  lemma ReadyMeansRoom(target: int, awaiting: map<Serial, set<Id>>, b: int, s: Serial)
    requires 0 < b && 0 < target && s in awaiting
    requires forall x | x in awaiting :: |awaiting[x]| < (target + 1) * b
    requires Ready(Balanced(target), awaiting, b)
    ensures |awaiting[s]| < target * b
  {
    BalancedReadyIff(target, awaiting, b);
  }

  lemma RegisterGrows(a: Accounts, batch: Batch, now: int, a': Accounts, b: int, s: Serial)
    requires Capped(b, batch) && Shrinks(Registered(a, batch, now), a') && s in a'.awaiting
    ensures |a'.awaiting[s]| <= |AwaitedIds(a.awaiting, s)| + b
  {
    hide IdsAt, PairsOf;
    IdsWithinLoad(batch, s);
    UnionSize(AwaitedIds(a.awaiting, s), IdsAt(PairsOf(batch), s));
  }

  /** No device comes to owe more than a batch more. */
  ghost predicate GrowsByBatch(b: int, before: map<Serial, set<Id>>, after: map<Serial, set<Id>>) {
    forall s | s in after :: |after[s]| <= |AwaitedIds(before, s)| + b
  }

  lemma RegisterKeepsRoom(c: Config, a: Accounts, batch: Batch, now: int, a': Accounts)
    requires Sane(c) && HasRoom(c, a) && Capped(c.b, batch) && Ready(c.policy, a.awaiting, c.b)
    requires Shrinks(Registered(a, batch, now), a')
    ensures HasRoom(c, a')
  {
    forall s | s in a'.awaiting ensures |a'.awaiting[s]| <= |AwaitedIds(a.awaiting, s)| + c.b {
      RegisterGrows(a, batch, now, a', c.b, s);
    }
    assert GrowsByBatch(c.b, a.awaiting, a'.awaiting);
    hide Registered, Capped, Shrinks, Ready, HasRoom, GrowsByBatch;
    GrowthKeepsRoom(c, a, a');
  }

  lemma GrowthKeepsRoom(c: Config, a: Accounts, a': Accounts)
    requires Sane(c) && HasRoom(c, a) && Ready(c.policy, a.awaiting, c.b)
    requires GrowsByBatch(c.b, a.awaiting, a'.awaiting)
    ensures HasRoom(c, a')
  {
    hide Ready, GrowsByBatch;
    match c.policy
    case Quick =>
    case Patient => PatientGrowth(c.b, a.awaiting, a'.awaiting);
    case Balanced(target) => BalancedGrowth(target, c.b, a.awaiting, a'.awaiting);
  }

  lemma PatientGrowth(b: int, before: map<Serial, set<Id>>, after: map<Serial, set<Id>>)
    requires 0 < b && Ready(Patient, before, b) && GrowsByBatch(b, before, after)
    ensures forall s | s in after :: |after[s]| <= b
  {
    forall s | s in after ensures |after[s]| <= b {
      NothingMeansZero(before, s);
    }
  }

  lemma BalancedGrowth(target: int, b: int, before: map<Serial, set<Id>>, after: map<Serial, set<Id>>)
    requires 0 < b && 0 < target && Ready(Balanced(target), before, b) && GrowsByBatch(b, before, after)
    requires forall s | s in before :: |before[s]| < (target + 1) * b
    ensures forall s | s in after :: |after[s]| < (target + 1) * b
  {
    TimesAtMost(1, target, b);
    NextBatchFits(target, b);
    forall s | s in after ensures |after[s]| < (target + 1) * b {
      if s in before {
        ReadyMeansRoom(target, before, b, s);
      }
    }
  }

  lemma NextBatchFits(target: int, b: int)
    ensures (target + 1) * b == target * b + b
  {
  }

  lemma ShrinkKeepsRoom(c: Config, a: Accounts, a': Accounts)
    requires HasRoom(c, a) && Shrinks(a, a')
    ensures HasRoom(c, a')
  {
  }

  // ---------------------------------------------------------------- one step

  lemma RegisterKeepsInv(c: Config, s: System, now: int, bad: seq<Pair>, s': System)
    requires Sane(c) && Inv(c, s) && Step(c, s, Register(now, bad), s')
    ensures Inv(c, s')
  {
    var batch, a := s.pending.value, s.accounts;
    var r := Registered(a, batch, now);
    PairsOfContents(batch);
    FreshPairs(c.evals, BatchContents(batch), s.registered);
    RegisteredAccounts(Dispatched(s.registered), a, s.yielded, batch, now);
    DispatchedUnion(s.registered, BatchContents(batch));
    FailAllAccounts(Dispatched(s'.registered), r, s.yielded, bad, now);
    RegisterKeepsRoom(c, a, batch, now, s'.accounts);
    RegisterBroken(s, batch, now, bad, s');
    RegisterSent(s, batch, now, bad, s');
    hide FailAll, Accounted, PairsOf, Dispatched, BrokenListed, SentOrFailed, HasRoom, Packs;
    assert Contents(s.queue) + BatchContents(batch) + s.registered ==
           Contents(s'.queue) + multiset{} + s'.registered;
  }

  lemma RegisterBroken(s: System, batch: Batch, now: int, bad: seq<Pair>, s': System)
    requires BrokenListed(s) && ListsBad(bad, PairsOf(batch), s.accounts.broken)
    requires s' == AfterRegister(s, batch, now, bad)
    requires Shrinks(Registered(s.accounts, batch, now), s'.accounts)
    requires forall p | p in bad :: !Awaits(s'.accounts, p)
    ensures BrokenListed(s')
  {
    hide FailAll;
    var r := Registered(s.accounts, batch, now);
    forall p: Pair | p.0 in s'.accounts.broken && Awaits(s'.accounts, p) ensures p in s'.handoff {
      assert Awaits(r, p);
      RegisteredAwaits(s.accounts, batch, now, p);
    }
  }

  lemma RegisterSent(s: System, batch: Batch, now: int, bad: seq<Pair>, s': System)
    requires SentOrFailed(s) && s' == AfterRegister(s, batch, now, bad)
    requires PairsOf(batch) !! Dispatched(s.registered)
    requires Dispatched(s'.registered) == Dispatched(s.registered) + PairsOf(batch)
    ensures SentOrFailed(s')
  {
    hide FailAll, PairsOf, Dispatched;
  }

  lemma ProcessKeepsInv(c: Config, s: System, x: Serial, id: Id, o: Outcome, now: int, handoff: seq<Pair>)
    requires Sane(c) && Inv(c, s)
    requires handoff == s.handoff || (s.handoff != [] && s.handoff[0] == (x, id) && handoff == s.handoff[1..])
    ensures Inv(c, s.(accounts := Processed(s.accounts, x, id, o, now), handoff := handoff))
  {
    var s' := s.(accounts := Processed(s.accounts, x, id, o, now), handoff := handoff);
    ProcessedAccounts(Dispatched(s.registered), s.accounts, s.yielded, x, id, o, now);
    ProcessedShrinks(s.accounts, x, id, o, now);
    ShrinkKeepsRoom(c, s.accounts, s'.accounts);
    hide Accounted, Conserved, HasRoom, Dispatched;
    assert Pending(s') == Pending(s);
    ProcessBroken(s, s', (x, id));
    assert Conserved(c, s') by { ConservedFrame(c, s, s'); }
  }

  lemma ConservedFrame(c: Config, s: System, s': System)
    requires Conserved(c, s)
    requires s'.queue == s.queue && s'.pending == s.pending && s'.registered == s.registered
    ensures Conserved(c, s')
  {
    hide GoodQueues, GoodBatch;
  }

  lemma ProcessBroken(s: System, s': System, p: Pair)
    requires BrokenListed(s) && Shrinks(s.accounts, s'.accounts) && !Awaits(s'.accounts, p)
    requires s'.handoff == s.handoff || (s.handoff != [] && s.handoff[0] == p && s'.handoff == s.handoff[1..])
    ensures BrokenListed(s')
  {
    forall q: Pair | q.0 in s'.accounts.broken && Awaits(s'.accounts, q) ensures q in s'.handoff {
      assert Awaits(s.accounts, q) && q in s.handoff;
      if s'.handoff != s.handoff {
        assert s.handoff == [p] + s'.handoff;
      }
    }
  }

  lemma ScanKeepsInv(c: Config, s: System, now: int, dead: set<Serial>, listed: seq<Pair>, s': System)
    requires Sane(c) && Inv(c, s) && Step(c, s, Scan(now, dead, listed), s')
    ensures Inv(c, s')
  {
    hide NewlyExpired, Dispatched, GoodQueues;
    ConservedFrame(c, s, s');
    hide Conserved;
    forall p ensures Awaits(s'.accounts, p) == Awaits(s.accounts, p) {
    }
  }

  lemma DrainKeepsInv(c: Config, s: System, s': System)
    requires Sane(c) && Inv(c, s) && Step(c, s, Drain, s')
    ensures Inv(c, s')
  {
    hide Dispatched, GoodQueues, PairList;
    ConservedFrame(c, s, s');
    hide Conserved;
    assert s'.yielded + s'.accounts.results == s.yielded + s.accounts.results;
    forall p ensures Awaits(s'.accounts, p) == Awaits(s.accounts, p) {
    }
  }

  lemma TakeKeepsInv(c: Config, s: System, r: Filling, s': System)
    requires Sane(c) && Inv(c, s) && Step(c, s, TakeBatch(r), s')
    ensures Inv(c, s')
  {
    TakeConserves(c, s, r, s');
    hide Conserved, Packs, Accounted, Dispatched, HasRoom;
  }

  lemma TakeConserves(c: Config, s: System, r: Filling, s': System)
    requires Sane(c) && Conserved(c, s) && Step(c, s, TakeBatch(r), s')
    ensures Conserved(c, s')
  {
    BatchIsGood(s.queue, c.b, r);
    hide TakenFrom, Capped, Saturated, SumsKept, GoodBatch, GoodQueues;
    assert Contents(s.queue) + multiset{} + s.registered ==
           Contents(r.queues) + BatchContents(r.batch) + s.registered;
  }

  lemma BatchIsGood(q: EvalQueues, b: int, r: Filling)
    requires GoodQueues(q) && Packs(q, b, r)
    ensures GoodBatch(b, r.batch)
  {
    hide GoodQueues, Contents, SumsKept, Saturated, Capped, Visible;
    forall g | g in r.batch ensures g.evals != [] {
      assert GroupTaken(q, Visible(q), r.batch, g);
    }
    hide GroupTaken;
    forall g, e | g in r.batch && e in g.evals ensures e.serials == g.serials {
      assert GroupTaken(q, Visible(q), r.batch, g);
      GroupFromQueue(q, r.batch, g, e);
    }
  }

  lemma GroupFromQueue(q: EvalQueues, batch: Batch, g: Group, e: Evaluation)
    requires GoodQueues(q) && GroupTaken(q, Visible(q), batch, g) && e in g.evals
    ensures e.serials == g.serials
  {
    hide Visible, Amount;
    var i :| 0 <= i < |g.evals| && g.evals[i] == e;
    var l := Get(q, g.serials);
    assert e == l[|l| - 1 - i] && e in l;
  }

  lemma StepKeepsInv(c: Config, s: System, ev: Event, s': System)
    requires Sane(c) && Inv(c, s) && Step(c, s, ev, s')
    ensures Inv(c, s')
  {
    hide Inv;
    match ev
    case TakeBatch(r) => TakeKeepsInv(c, s, r, s');
    case Register(now, bad) => RegisterKeepsInv(c, s, now, bad, s');
    case Arrive(serial, id, value, now) => ProcessKeepsInv(c, s, serial, id, Value(value), now, s.handoff);
    case Scan(now, dead, listed) => ScanKeepsInv(c, s, now, dead, listed, s');
    case FailListed(now) =>
      ProcessKeepsInv(c, s, s.handoff[0].0, s.handoff[0].1, EvaluationFailed, now, s.handoff[1..]);
    case Drain => DrainKeepsInv(c, s, s');
  }

  lemma InitHolds(c: Config, s: System)
    requires Sane(c) && Init(c, s)
    ensures Inv(c, s)
  {
    FromEvaluationsHolds(c.evals);
  }

  // ---------------------------------------------------------------- all runs

  datatype Trace = Trace(states: seq<System>, events: seq<Event>)

  ghost predicate IsTrace(c: Config, t: Trace) {
    && Sane(c) && |t.states| == |t.events| + 1 && Init(c, t.states[0])
    && forall i | 0 <= i < |t.events| :: StepOf(c, t, i)
  }

  ghost predicate StepOf(c: Config, t: Trace, i: nat)
    requires 0 < c.b && i < |t.events| && i + 1 < |t.states|
  {
    Step(c, t.states[i], t.events[i], t.states[i + 1])
  }

  lemma {:induction false} TraceKeepsInv(c: Config, t: Trace, n: nat)
    requires IsTrace(c, t) && n < |t.states|
    ensures Inv(c, t.states[n])
  {
    hide Inv, Step;
    if n == 0 {
      InitHolds(c, t.states[0]);
    } else {
      TraceKeepsInv(c, t, n - 1);
      assert StepOf(c, t, n - 1);
      StepKeepsInv(c, t.states[n - 1], t.events[n - 1], t.states[n]);
    }
  }

  /** Exactly once: in every reachable state the dispatched pairs are, as multisets, those still
      awaited, those buffered and those yielded; and each belongs to an evaluation of the input
      that asks for that device. */
  lemma ExactlyOnce(c: Config, t: Trace, n: nat)
    requires IsTrace(c, t) && n < |t.states|
    ensures var s := t.states[n];
            var awaited := set p | p in Dispatched(s.registered) && Awaits(s.accounts, p);
            && multiset(Dispatched(s.registered)) ==
               multiset(awaited) + multiset(PairList(s.accounts.results)) + multiset(PairList(s.yielded))
            && (forall p | Awaits(s.accounts, p) :: p in awaited)
            && (forall r | r in s.yielded :: exists e | e in c.evals :: e.id == r.id && r.serial in e.serials)
  {
    TraceKeepsInv(c, t, n);
    var s := t.states[n];
    var d := Dispatched(s.registered);
    var all := PairList(s.yielded + s.accounts.results);
    assert all == PairList(s.yielded) + PairList(s.accounts.results);
    YieldedBelong(c, s);
    hide PairList, Dispatched, Conserved, BrokenListed, SentOrFailed, DoneRight, Clocked, HasRoom, Awaits;
    CountOnce(d, (set p | p in d && Awaits(s.accounts, p)), all);
  }

  lemma YieldedBelong(c: Config, s: System)
    requires Conserved(c, s) && Accounted(Dispatched(s.registered), s.accounts, s.yielded)
    ensures forall r | r in s.yielded :: exists e | e in c.evals :: e.id == r.id && r.serial in e.serials
  {
    var all := PairList(s.yielded + s.accounts.results);
    forall r | r in s.yielded ensures exists e | e in c.evals :: e.id == r.id && r.serial in e.serials {
      var i :| 0 <= i < |s.yielded| && s.yielded[i] == r;
      assert all[i] == (r.serial, r.id) && all[i] in Dispatched(s.registered);
      var e, x :| e in s.registered && x in e.serials && (x, e.id) == (r.serial, r.id);
      assert e in multiset(c.evals);
    }
  }

  lemma CountOnce(d: set<Pair>, awaited: set<Pair>, all: seq<Pair>)
    requires NoDuplicates(all)
    requires forall p :: (p in d <==> p in awaited || p in all) && !(p in awaited && p in all)
    ensures multiset(d) == multiset(awaited) + multiset(all)
  {
    OnceEach(all);
    forall p ensures multiset(d)[p] == multiset(awaited)[p] + multiset(all)[p] {
      if p in all { assert p in multiset(all); }
    }
  }

  /** When `getResults` has returned, every pair of every batch the bundle produced was yielded
      exactly once, and what was not sent is still in the bundle. */
  lemma FinishedMeansDelivered(c: Config, t: Trace, n: nat)
    requires IsTrace(c, t) && n < |t.states| && t.states[n].finished
    ensures var s := t.states[n];
            && multiset(Dispatched(s.registered)) == multiset(PairList(s.yielded))
            && s.registered + Contents(s.queue) == multiset(c.evals)
            && (Contents(s.queue) == multiset{} ==>
                  multiset(Dispatched(multiset(c.evals))) == multiset(PairList(s.yielded)))
  {
    TraceKeepsInv(c, t, n);
    var s := t.states[n];
    forall p ensures !Awaits(s.accounts, p) {
      NothingMeansZero(s.accounts.awaiting, p.0);
    }
    assert s.yielded + s.accounts.results == s.yielded;
    CountOnce(Dispatched(s.registered), {}, PairList(s.yielded));
    assert Contents(s.queue) + multiset{} + s.registered == s.registered + Contents(s.queue);
    assert Contents(s.queue) == multiset{} ==> s.registered == multiset(c.evals);
  }

  /** Backpressure: no device ever owes `target + 1` full batches, so the number the balanced
      factory compares is never negative and its truth value is `batches < target`. */
  lemma Backpressure(c: Config, t: Trace, n: nat, target: int, h: nat)
    requires IsTrace(c, t) && n < |t.states| && c.policy == Balanced(target)
    requires Highest(t.states[n].accounts.awaiting, h)
    ensures h < (target + 1) * c.b
    ensures 0 <= target - h / c.b && (target - h / c.b != 0 <==> h / c.b < target)
  {
    TraceKeepsInv(c, t, n);
    BatchesBelow(target, h, c.b);
  }

  /** When a factory lets the next batch through, in every state of every run: the quick one always, the
      patient one when nothing at all is owed, the balanced one when every device owes less than
      `target` batches. */
  lemma ReadyThroughout(c: Config, t: Trace, n: nat)
    requires IsTrace(c, t) && n < |t.states|
    ensures var a := t.states[n].accounts;
            Ready(c.policy, a.awaiting, c.b) <==>
              match c.policy
              case Quick => true
              case Patient => forall p :: !Awaits(a, p)
              case Balanced(target) => forall s :: |AwaitedIds(a.awaiting, s)| < target * c.b
  {
    TraceKeepsInv(c, t, n);
    var a := t.states[n].accounts;
    assert HasRoom(c, a);
    hide Inv, IsTrace, Awaits, AwaitedIds, Highest;
    match c.policy
    case Quick =>
    case Patient => PatientOwedNothing(a, c.b);
    case Balanced(target) => BalancedInRoom(target, a.awaiting, c.b);
  }

  lemma PatientOwedNothing(a: Accounts, b: int)
    requires 0 < b
    ensures Ready(Patient, a.awaiting, b) <==> forall p :: !Awaits(a, p)
  {
    PatientReadyIff(a.awaiting, b);
    if forall p :: !Awaits(a, p) {
      forall s, id ensures id !in AwaitedIds(a.awaiting, s) {
        assert !Awaits(a, (s, id));
      }
    }
  }

  lemma BalancedInRoom(target: int, awaiting: map<Serial, set<Id>>, b: int)
    requires 0 < b && 0 < target && forall s | s in awaiting :: |awaiting[s]| < (target + 1) * b
    ensures Ready(Balanced(target), awaiting, b) <==> forall s :: |AwaitedIds(awaiting, s)| < target * b
  {
    BalancedReadyIff(target, awaiting, b);
    TimesAtMost(1, target, b);
    hide Ready;
    forall s | s in awaiting ensures AwaitedIds(awaiting, s) == awaiting[s] {
    }
  }

  /** The patient factory never lets a device owe more than one batch. */
  lemma PatientOwesOneBatch(c: Config, t: Trace, n: nat, s: Serial)
    requires IsTrace(c, t) && n < |t.states| && c.policy == Patient
    ensures |AwaitedIds(t.states[n].accounts.awaiting, s)| <= c.b
  {
    TraceKeepsInv(c, t, n);
  }

  // ---------------------------------------------------------------- failures

  /** What a consumer sees of failures: every pair failed at once is delivered as such, and only
      devices that were given up deliver failures. */
  ghost predicate FailuresDelivered(s: System) {
    && (forall p | p in s.failed :: Result(p.0, p.1, EvaluationFailed) in s.yielded + s.accounts.results)
    && (forall p | p in s.handoff :: p.0 in s.accounts.broken)
    && (forall r | r in s.yielded + s.accounts.results :: r.outcome.EvaluationFailed? ==> r.serial in s.accounts.broken)
  }

  /** Failing a list delivers a failure for each of its awaited pairs, keeps what was delivered, and
      adds nothing else. */
  lemma {:induction false} FailAllDelivers(a: Accounts, pairs: seq<Pair>, now: int)
    ensures a.results <= FailAll(a, pairs, now).results && FailAll(a, pairs, now).broken == a.broken
    ensures forall p | Awaits(a, p) ::
              if p in pairs then Result(p.0, p.1, EvaluationFailed) in FailAll(a, pairs, now).results
              else Awaits(FailAll(a, pairs, now), p)
    ensures forall r | r in FailAll(a, pairs, now).results ::
              r in a.results || (r.outcome.EvaluationFailed? && (r.serial, r.id) in pairs)
  {
    if pairs != [] {
      var front, last := pairs[..|pairs| - 1], pairs[|pairs| - 1];
      assert pairs == front + [last];
      FailAllDelivers(a, front, now);
      var a' := FailAll(a, front, now);
      ProcessDelivers(a', last.0, last.1, EvaluationFailed, now);
      hide Processed, Awaits;
    }
  }

  lemma ProcessDelivers(a: Accounts, x: Serial, id: Id, o: Outcome, now: int)
    ensures var a' := Processed(a, x, id, o, now);
            && a.results <= a'.results && a'.broken == a.broken
            && (Awaits(a, (x, id)) ==> Result(x, id, o) in a'.results)
            && (forall p | Awaits(a, p) && p != (x, id) :: Awaits(a', p))
            && (forall r | r in a'.results :: r in a.results || r == Result(x, id, o))
  {
  }

  lemma RegisterDelivers(s: System, batch: Batch, now: int, bad: seq<Pair>)
    requires FailuresDelivered(s) && ListsBad(bad, PairsOf(batch), s.accounts.broken)
    ensures FailuresDelivered(AfterRegister(s, batch, now, bad))
  {
    var r, s' := Registered(s.accounts, batch, now), AfterRegister(s, batch, now, bad);
    FailAllDelivers(r, bad, now);
    forall p | p in PairsOf(batch) && p.0 in s.accounts.broken
      ensures Result(p.0, p.1, EvaluationFailed) in s'.accounts.results
    {
      RegisteredAwaits(s.accounts, batch, now, p);
    }
    assert r.results == s.accounts.results && r.broken == s.accounts.broken;
    hide FailAll, PairsOf, Registered, Awaits;
    assert s.yielded + s.accounts.results <= s.yielded + s'.accounts.results;
  }

  lemma StepDelivers(c: Config, s: System, ev: Event, s': System)
    requires 0 < c.b && FailuresDelivered(s) && Step(c, s, ev, s')
    ensures FailuresDelivered(s')
  {
    match ev
    case Register(now, bad) => RegisterDelivers(s, s.pending.value, now, bad);
    case Arrive(x, id, value, now) => ProcessDelivers(s.accounts, x, id, Value(value), now);
    case FailListed(now) =>
      ProcessDelivers(s.accounts, s.handoff[0].0, s.handoff[0].1, EvaluationFailed, now);
      assert s.handoff == [s.handoff[0]] + s'.handoff;
    case Drain => assert s'.yielded + s'.accounts.results == s.yielded + s.accounts.results;
    case TakeBatch(_) =>
    case Scan(_, _, _) =>
  }

  lemma DeliversAfter(c: Config, t: Trace, i: nat)
    requires IsTrace(c, t) && i < |t.events| && FailuresDelivered(t.states[i])
    ensures FailuresDelivered(t.states[i + 1])
  {
    hide FailuresDelivered, Step, Init;
    assert StepOf(c, t, i);
    StepDelivers(c, t.states[i], t.events[i], t.states[i + 1]);
  }

  lemma {:induction false} TraceDelivers(c: Config, t: Trace, n: nat)
    requires IsTrace(c, t) && n < |t.states|
    ensures FailuresDelivered(t.states[n])
    decreases n
  {
    if n > 0 {
      hide FailuresDelivered, StepOf, Init, Sane;
      TraceDelivers(c, t, n - 1);
      DeliversAfter(c, t, n - 1);
    }
  }

  /** A broken device never strands a run: it awaits only what the watchdog is about to fail, so
      nothing once the watchdog's list is worked off; and of its dispatched pairs each was either
      requested from it, or failed at once and delivered to the consumer as a failure. */
  lemma BrokenNeverStrands(c: Config, t: Trace, n: nat, p: Pair)
    requires IsTrace(c, t) && n < |t.states| && p.0 in t.states[n].accounts.broken
    ensures Awaits(t.states[n].accounts, p) ==> p in t.states[n].handoff
    ensures t.states[n].handoff == [] ==> !Awaits(t.states[n].accounts, p)
    ensures p in Dispatched(t.states[n].registered) ==> (p in t.states[n].sent <==> p !in t.states[n].failed)
    ensures p in t.states[n].failed ==>
              Result(p.0, p.1, EvaluationFailed) in t.states[n].yielded + t.states[n].accounts.results
  {
    TraceKeepsInv(c, t, n);
    TraceDelivers(c, t, n);
    assert BrokenListed(t.states[n]) && SentOrFailed(t.states[n]);
  }

  /** A consumer is told of a failure only for a device that was given up. */
  lemma OnlyBrokenFail(c: Config, t: Trace, n: nat, r: Result)
    requires IsTrace(c, t) && n < |t.states| && r in t.states[n].yielded && r.outcome.EvaluationFailed?
    ensures r.serial in t.states[n].accounts.broken
  {
    TraceDelivers(c, t, n);
  }

  /** The watchdog never meets a device that owes results but has no time of last result. */
  lemma AwaitedIsClocked(c: Config, t: Trace, n: nat, p: Pair)
    requires IsTrace(c, t) && n < |t.states| && Awaits(t.states[n].accounts, p)
    ensures p.0 in t.states[n].accounts.lastResult
  {
    TraceKeepsInv(c, t, n);
  }
}
