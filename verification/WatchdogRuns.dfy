/** When the watchdog of a batch factory gives a device up: never too soon after a result, but
    possibly right after it was sent work. */
module WatchdogRuns {
  import opened Options
  import opened MappedQueuesModel
  import opened EvaluationBundleModel
  import opened BatchFactoryModel
  import opened FactoryRuns
  import opened BundleDrain
  import opened BundleBest

  ghost function TimeOf(ev: Event): Option<int> {
    match ev
    case Register(now, _) => Some(now)
    case Arrive(_, _, _, now) => Some(now)
    case Scan(now, _, _) => Some(now)
    case FailListed(now) => Some(now)
    case _ => None
  }

  ghost predicate NotBefore(ev: Event, time: int) {
    TimeOf(ev).Some? ==> time <= TimeOf(ev).value
  }

  /** The clock never goes back from event `i` on. */
  ghost predicate ClockForward(t: Trace, i: nat, time: int) {
    forall j | i <= j < |t.events| :: NotBefore(t.events[j], time)
  }

  ghost predicate Recent(a: Accounts, x: Serial, time: int) {
    x in a.lastResult && time <= a.lastResult[x]
  }

  lemma {:induction false} FailAllRecent(a: Accounts, pairs: seq<Pair>, now: int, x: Serial, time: int)
    requires Recent(a, x, time) && time <= now
    ensures Recent(FailAll(a, pairs, now), x, time)
  {
    if pairs != [] {
      FailAllRecent(a, pairs[..|pairs| - 1], now, x, time);
    }
  }

  lemma StepKeepsRecent(c: Config, s: System, ev: Event, s': System, x: Serial, time: int)
    requires 0 < c.b && Step(c, s, ev, s') && Recent(s.accounts, x, time) && NotBefore(ev, time)
    ensures Recent(s'.accounts, x, time)
  {
    hide Packs, PairsOf, FailAll;
    if ev.Register? {
      var r := Registered(s.accounts, s.pending.value, ev.now);
      assert Recent(r, x, time);
      FailAllRecent(r, ev.bad, ev.now, x, time);
    }
  }

  lemma RecentAfter(c: Config, t: Trace, i: nat, x: Serial, time: int)
    requires IsTrace(c, t) && i < |t.events| && Recent(t.states[i].accounts, x, time) && NotBefore(t.events[i], time)
    ensures Recent(t.states[i + 1].accounts, x, time)
  {
    hide Step, Recent, NotBefore;
    assert StepOf(c, t, i);
    StepKeepsRecent(c, t.states[i], t.events[i], t.states[i + 1], x, time);
  }

  lemma {:induction false} StaysRecent(c: Config, t: Trace, i: nat, n: nat, x: Serial, time: int)
    requires IsTrace(c, t) && i <= n < |t.states| && Recent(t.states[i].accounts, x, time) && ClockForward(t, i, time)
    ensures Recent(t.states[n].accounts, x, time)
    decreases n
  {
    if i < n {
      hide StepOf, Recent, Init;
      StaysRecent(c, t, i, n - 1, x, time);
      assert NotBefore(t.events[n - 1], time);
      RecentAfter(c, t, n - 1, x, time);
    }
  }

  /** A device that delivered an awaited result is given up only after a full timeout of silence. */
  lemma NoFalseAlarm(c: Config, t: Trace, i: nat, n: nat, x: Serial)
    requires IsTrace(c, t) && i < n < |t.events|
    requires t.events[i].Arrive? && t.events[i].serial == x && Awaits(t.states[i].accounts, (x, t.events[i].id))
    requires t.events[n].Scan? && x in t.events[n].dead
    requires ClockForward(t, i, t.events[i].now)
    ensures t.events[i].now + c.timeout < t.events[n].now
  {
    assert StepOf(c, t, i) && StepOf(c, t, n);
    assert Recent(t.states[i + 1].accounts, x, t.events[i].now);
    StaysRecent(c, t, i + 1, n, x, t.events[i].now);
    assert NewlyExpired(t.states[n].accounts, x, c.timeout, t.events[n].now);
  }

  // ---------------------------------------------------------------- no grace for idle devices

  /** The step delivers a result of `x`. */
  ghost predicate Heard(s: System, ev: Event, x: Serial) {
    match ev
    case Arrive(y, id, _, _) => y == x && Awaits(s.accounts, (x, id))
    case FailListed(_) => s.handoff != [] && s.handoff[0].0 == x && Awaits(s.accounts, s.handoff[0])
    case Register(_, bad) => exists p | p in bad :: p.0 == x
    case _ => false
  }

  /** `x` owes `id` and was last heard of at `time`. */
  ghost predicate Owes(a: Accounts, x: Serial, id: Id, time: int) {
    Awaits(a, (x, id)) && x in a.lastResult && a.lastResult[x] == time
  }

  lemma {:induction false} FailAllOthers(a: Accounts, pairs: seq<Pair>, now: int, x: Serial, id: Id, time: int)
    requires Owes(a, x, id, time) && forall p | p in pairs :: p.0 != x
    ensures Owes(FailAll(a, pairs, now), x, id, time)
  {
    if pairs != [] {
      assert pairs[|pairs| - 1] in pairs;
      FailAllOthers(a, pairs[..|pairs| - 1], now, x, id, time);
    }
  }

  lemma SilentStep(c: Config, s: System, ev: Event, s': System, x: Serial, id: Id, time: int)
    requires 0 < c.b && Step(c, s, ev, s') && !Heard(s, ev, x) && Owes(s.accounts, x, id, time)
    ensures Owes(s'.accounts, x, id, time)
  {
    if ev.Register? {
      var r := Registered(s.accounts, s.pending.value, ev.now);
      RegisteredAwaits(s.accounts, s.pending.value, ev.now, (x, id));
      assert Owes(r, x, id, time);
      FailAllOthers(r, ev.bad, ev.now, x, id, time);
    }
    hide Packs, PairsOf, FailAll;
  }

  lemma SilentAfter(c: Config, t: Trace, k: nat, x: Serial, id: Id, time: int)
    requires IsTrace(c, t) && k < |t.events| && !Heard(t.states[k], t.events[k], x)
    requires Owes(t.states[k].accounts, x, id, time)
    ensures Owes(t.states[k + 1].accounts, x, id, time)
  {
    hide Step, Heard, Owes;
    assert StepOf(c, t, k);
    SilentStep(c, t.states[k], t.events[k], t.states[k + 1], x, id, time);
  }

  lemma {:induction false} StaysSilent(c: Config, t: Trace, i: nat, n: nat, x: Serial, id: Id, time: int)
    requires IsTrace(c, t) && i <= n < |t.states| && Owes(t.states[i].accounts, x, id, time)
    requires forall k | i <= k < n :: !Heard(t.states[k], t.events[k], x)
    ensures Owes(t.states[n].accounts, x, id, time)
    decreases n
  {
    if i < n {
      hide StepOf, Init, Heard, Owes;
      StaysSilent(c, t, i, n - 1, x, id, time);
      SilentAfter(c, t, n - 1, x, id, time);
    }
  }

  /** Registering a batch starts the clock of a device only if the device is new. */
  lemma RegisteredOwes(s: System, b: int, now: int, bad: seq<Pair>, x: Serial) returns (id: Id)
    requires s.pending.Some? && GoodBatch(b, s.pending.value) && x in SerialsOf(s.pending.value)
    requires Clocked(s) && forall p | p in bad :: p.0 != x
    ensures Owes(AfterRegister(s, s.pending.value, now, bad).accounts, x, id,
                 if x in s.accounts.awaiting then s.accounts.lastResult[x] else now)
  {
    var batch := s.pending.value;
    var g :| g in batch && x in g.serials;
    id := g.evals[0].id;
    assert g.evals[0] in g.evals && (x, id) in PairsOf(batch);
    RegisteredAwaits(s.accounts, batch, now, (x, id));
    var time := if x in s.accounts.awaiting then s.accounts.lastResult[x] else now;
    assert Owes(Registered(s.accounts, batch, now), x, id, time);
    FailAllOthers(Registered(s.accounts, batch, now), bad, now, x, id, time);
  }

  /** Being sent work grants no grace. Take a device that is sent a batch at step `i`, and a scan at
      step `n`, still within the timeout and with no result of the device in between. The scan may
      give the device up exactly if the device was known before and had been silent, even if idle, for
      longer than the timeout. */
  lemma GraceIff(c: Config, t: Trace, i: nat, n: nat, x: Serial)
    requires IsTrace(c, t) && i < n < |t.events|
    requires t.events[i].Register? && t.states[i].pending.Some? && x in SerialsOf(t.states[i].pending.value)
    requires t.events[n].Scan? && t.events[n].now <= t.events[i].now + c.timeout
    requires forall k | i <= k < n :: !Heard(t.states[k], t.events[k], x)
    ensures NewlyExpired(t.states[n].accounts, x, c.timeout, t.events[n].now) <==>
              && x !in t.states[n].accounts.broken
              && x in t.states[i].accounts.awaiting && x in t.states[i].accounts.lastResult
              && t.states[i].accounts.lastResult[x] + c.timeout < t.events[n].now
    ensures x in t.events[n].dead ==> NewlyExpired(t.states[n].accounts, x, c.timeout, t.events[n].now)
  {
    TraceKeepsInv(c, t, i);
    var s, s' := t.states[i], t.states[i + 1];
    assert StepOf(c, t, i) && StepOf(c, t, n);
    hide GoodBatch;
    var id := RegisteredOwes(s, c.b, t.events[i].now, t.events[i].bad, x);
    var time := if x in s.accounts.awaiting then s.accounts.lastResult[x] else t.events[i].now;
    assert s' == AfterRegister(s, s.pending.value, t.events[i].now, t.events[i].bad);
    StaysSilent(c, t, i + 1, n, x, id, time);
  }

  // ---------------------------------------------------------------- a board given up at once

  ghost function Last(t: Trace): System
    requires t.states != []
  {
    t.states[|t.states| - 1]
  }

  ghost function Then(t: Trace, ev: Event, s: System): Trace {
    Trace(t.states + [s], t.events + [ev])
  }

  lemma ThenIsTrace(c: Config, t: Trace, ev: Event, s: System)
    requires IsTrace(c, t) && Step(c, Last(t), ev, s)
    ensures IsTrace(c, Then(t, ev, s)) && Last(Then(t, ev, s)) == s
  {
    hide Step, Init;
    var longer := Then(t, ev, s);
    forall i | 0 <= i < |longer.events| ensures StepOf(c, longer, i) {
      if i < |t.events| {
        assert StepOf(c, t, i);
      }
    }
  }

  lemma TakesLast(k: Key, l: seq<Evaluation>)
    requires k != {} && l != []
    ensures FillOne(Filling(Queues([k], map[k := l]), []), k, 1) ==
            Filling(Queues([k], map[k := l[..|l| - 1]]), [Group(k, [l[|l| - 1]])])
  {
    var q := Queues([k], map[k := l]);
    assert IsSlots(Slots(1, [], k), 1, [], k);
    assert PoppedItems(l, 1) == [l[|l| - 1]];
    assert [] + [Group(k, [l[|l| - 1]])] == [Group(k, [l[|l| - 1]])];
    assert q.state[k := l[..|l| - 1]] == map[k := l[..|l| - 1]];
  }

  lemma OneQueueVisible(k: Key, l: seq<Evaluation>)
    requires k != {} && l != [] && forall e | e in l :: e.serials == k
    ensures GoodQueues(Queues([k], map[k := l])) && Visible(Queues([k], map[k := l])) == [k]
  {
    var q := Queues([k], map[k := l]);
    VisibleUnique(q.order, q.state, q.order);
  }

  lemma SearchesOne(k: Key, l: seq<Evaluation>)
    requires k != {} && l != [] && forall e | e in l :: e.serials == k
    ensures GoodQueues(Queues([k], map[k := l]))
    ensures NextBatch(Queues([k], map[k := l]), 1) == FillOne(Filling(Queues([k], map[k := l]), []), k, 1)
  {
    var q := Queues([k], map[k := l]);
    OneQueueVisible(k, l);
    hide FillOne, GoodQueues, Visible;
    SortedStays([k]);
    FillAllSnoc(q, [], k, 1);
    assert [] + [k] == [k];
  }

  /** With one slot per batch a single key gives up its last evaluation. */
  lemma SingleKeyBatch(k: Key, l: seq<Evaluation>)
    requires k != {} && l != [] && forall e | e in l :: e.serials == k
    ensures Packs(Queues([k], map[k := l]), 1,
                  Filling(Queues([k], map[k := l[..|l| - 1]]), [Group(k, [l[|l| - 1]])]))
  {
    hide Packs, NextBatch, FillOne, GoodQueues;
    SearchesOne(k, l);
    TakesLast(k, l);
    NextBatchPacks(Queues([k], map[k := l]), 1);
  }

  /** Registering one evaluation on one device. */
  lemma RegisterSingle(a: Accounts, x: Serial, e: Evaluation, now: int)
    ensures var batch := [Group({x}, [e])];
            && SerialsOf(batch) == {x} && PairsOf(batch) == {(x, e.id)}
            && Registered(a, batch, now) ==
               a.(awaiting := a.awaiting[x := AwaitedIds(a.awaiting, x) + {e.id}],
                  lastResult := if x in a.awaiting then a.lastResult else a.lastResult[x := now])
  {
    var batch := [Group({x}, [e])];
    assert GroupPairs({x}, [e]) == {(x, e.id)};
    assert [] + batch == batch;
    BatchSnoc([], Group({x}, [e]));
    assert SerialsOf([]) == {} && PairsOf([]) == {};
    RegisterOne(a, {}, {}, x, [e], now);
    RegisterNothing(a, now);
    assert (set f | f in [e] :: f.id) == {e.id};
    assert {} + {x} == {x} && {} + GroupPairs({x}, [e]) == GroupPairs({x}, [e]);
  }

  ghost function TwoCircuits(x: Serial, policy: Policy, timeout: int): Config {
    Config([Evaluation("e1", {x}), Evaluation("e2", {x})], 1, policy, timeout)
  }

  ghost function Send(x: Serial, e: Evaluation, left: seq<Evaluation>): Filling {
    Filling(Queues([{x}], map[{x} := left]), [Group({x}, [e])])
  }

  lemma TakesNext(c: Config, s: System, x: Serial, left: seq<Evaluation>, e: Evaluation)
    requires c.b == 1 && !s.empty && s.pending.None? && s.queue == Queues([{x}], map[{x} := left + [e]])
    requires forall f | f in left + [e] :: f.serials == {x}
    ensures Step(c, s, TakeBatch(Send(x, e, left)),
                 s.(queue := Send(x, e, left).queues, pending := Some(Send(x, e, left).batch)))
  {
    SingleKeyBatch({x}, left + [e]);
    assert (left + [e])[..|left|] == left;
    hide Packs;
  }

  lemma SentToIdle(c: Config, s: System, x: Serial, e: Evaluation, now: int)
    requires 0 < c.b && s.pending == Some([Group({x}, [e])]) && s.accounts.broken == {}
    requires NothingAwaited(s.accounts.awaiting) && (c.policy.Balanced? ==> 0 < c.policy.target)
    ensures var s' := AfterRegister(s, s.pending.value, now, []);
            && Step(c, s, Register(now, []), s')
            && s'.accounts == s.accounts.(
                 awaiting := s.accounts.awaiting[x := {e.id}],
                 lastResult := if x in s.accounts.awaiting then s.accounts.lastResult
                               else s.accounts.lastResult[x := now])
  {
    RegisterSingle(s.accounts, x, e, now);
    NothingMeansZero(s.accounts.awaiting, x);
    assert {} + {e.id} == {e.id};
    hide Registered, PairsOf;
  }

  /** Where the client stands between two batches for `x`. */
  ghost predicate Between(s: System, x: Serial, left: seq<Evaluation>, a: Accounts) {
    && s.queue == Queues([{x}], map[{x} := left]) && s.pending == None && !s.empty && s.handoff == []
    && s.accounts == a && a.broken == {}
  }

  lemma StartTrace(c: Config, x: Serial) returns (t: Trace)
    requires Sane(c) && c.evals != [] && forall e | e in c.evals :: e.serials == {x}
    ensures IsTrace(c, t) && t.events == [] && Between(Last(t), x, c.evals, Accounts(map[], map[], [], {}))
  {
    OneSet(c.evals, {x});
    t := Trace([System(FromEvaluations(c.evals), None, false, Accounts(map[], map[], [], {}), [], multiset{},
                       {}, {}, [], false)], []);
  }

  lemma TakeRound(c: Config, t: Trace, x: Serial, left: seq<Evaluation>, e: Evaluation) returns (t': Trace)
    requires IsTrace(c, t) && c.b == 1 && !Last(t).empty && Last(t).pending == None
    requires Last(t).queue == Queues([{x}], map[{x} := left + [e]])
    requires forall f | f in left + [e] :: f.serials == {x}
    ensures IsTrace(c, t') && t'.events == t.events + [TakeBatch(Send(x, e, left))]
    ensures Last(t') == Last(t).(queue := Send(x, e, left).queues, pending := Some([Group({x}, [e])]))
  {
    var s, r := Last(t), Send(x, e, left);
    TakesNext(c, s, x, left, e);
    var s1 := s.(queue := r.queues, pending := Some(r.batch));
    ThenIsTrace(c, t, TakeBatch(r), s1);
    t' := Then(t, TakeBatch(r), s1);
    hide *;
  }

  /** The next batch is taken and sent to the idle device. */
  lemma SendRound(c: Config, t: Trace, x: Serial, left: seq<Evaluation>, e: Evaluation, a: Accounts, now: int)
    returns (t': Trace)
    requires IsTrace(c, t) && c.b == 1 && Between(Last(t), x, left + [e], a) && NothingAwaited(a.awaiting)
    requires forall f | f in left + [e] :: f.serials == {x}
    ensures IsTrace(c, t') && t'.events == t.events + [TakeBatch(Send(x, e, left)), Register(now, [])]
    ensures Between(Last(t'), x, left,
                    a.(awaiting := a.awaiting[x := {e.id}],
                       lastResult := if x in a.awaiting then a.lastResult else a.lastResult[x := now]))
  {
    var t1 := TakeRound(c, t, x, left, e);
    assert c.policy.Balanced? ==> 0 < c.policy.target;
    hide IsTrace;
    var s1 := Last(t1);
    SentToIdle(c, s1, x, e, now);
    var s2 := AfterRegister(s1, s1.pending.value, now, []);
    assert s2.queue == s1.queue && s2.pending == None && s2.empty == s1.empty && s2.handoff == s1.handoff;
    hide Step, AfterRegister, NothingAwaited;
    ThenIsTrace(c, t1, Register(now, []), s2);
    t' := Then(t1, Register(now, []), s2);
  }

  /** The device answers. */
  lemma AnswerRound(c: Config, t: Trace, x: Serial, left: seq<Evaluation>, id: Id, a: Accounts, value: string, now: int)
    returns (t': Trace)
    requires IsTrace(c, t) && Between(Last(t), x, left, a) && x in a.awaiting && a.awaiting[x] == {id}
    ensures IsTrace(c, t') && t'.events == t.events + [Arrive(x, id, value, now)]
    ensures Between(Last(t'), x, left,
                    a.(awaiting := a.awaiting[x := {}], lastResult := a.lastResult[x := now],
                       results := a.results + [Result(x, id, Value(value))]))
  {
    var s := Last(t);
    var s1 := s.(accounts := Processed(a, x, id, Value(value), now));
    assert {id} - {id} == {};
    hide IsTrace;
    ThenIsTrace(c, t, Arrive(x, id, value, now), s1);
    t' := Then(t, Arrive(x, id, value, now), s1);
  }

  /** A board evaluates the first of its two circuits and has then nothing to do. */
  lemma FirstAnswered(x: Serial, value: string, policy: Policy, timeout: int) returns (t: Trace)
    requires policy.Balanced? ==> 0 < policy.target
    ensures var c := TwoCircuits(x, policy, timeout);
            && IsTrace(c, t)
            && t.events == [TakeBatch(Send(x, c.evals[1], [c.evals[0]])), Register(0, []), Arrive(x, "e2", value, 1)]
            && Between(Last(t), x, [c.evals[0]],
                       Accounts(map[x := {}], map[x := 1], [Result(x, "e2", Value(value))], {}))
  {
    var c, e1, e2 := TwoCircuits(x, policy, timeout), Evaluation("e1", {x}), Evaluation("e2", {x});
    assert "e1"[1] != "e2"[1];
    assert c.evals == [e1] + [e2];
    hide IsTrace, Between;
    t := StartTrace(c, x);
    t := SendRound(c, t, x, [e1], e2, Accounts(map[], map[], [], {}), 0);
    t := AnswerRound(c, t, x, [e1], "e2", Accounts(map[x := {"e2"}], map[x := 0], [], {}), value, 1);
    assert map[x := {"e2"}][x := {}] == map[x := {}] && map[x := 0][x := 1] == map[x := 1];
  }

  /** Idle for longer than the timeout, the board is sent its second circuit and given up at that very
      moment. */
  lemma IdleBoardGivenUp(x: Serial, value: string, policy: Policy, timeout: nat) returns (t: Trace)
    requires policy.Balanced? ==> 0 < policy.target
    ensures var c := TwoCircuits(x, policy, timeout);
            && IsTrace(c, t)
            && t.events == [TakeBatch(Send(x, c.evals[1], [c.evals[0]])), Register(0, []), Arrive(x, "e2", value, 1),
                            TakeBatch(Send(x, c.evals[0], [])), Register(timeout + 2, []),
                            Scan(timeout + 2, {x}, [(x, "e1")])]
            && x in Last(t).accounts.broken && Awaits(Last(t).accounts, (x, "e1"))
  {
    var c, e1 := TwoCircuits(x, policy, timeout), Evaluation("e1", {x});
    var a := Accounts(map[x := {}], map[x := 1], [Result(x, "e2", Value(value))], {});
    hide IsTrace, Between;
    t := FirstAnswered(x, value, policy, timeout);
    assert [] + [e1] == [e1];
    t := SendRound(c, t, x, [], e1, a, timeout + 2);
    assert map[x := {}][x := {"e1"}] == map[x := {"e1"}];
    t := ScanRound(c, t, x, "e1", a.(awaiting := map[x := {"e1"}]), timeout + 2);
  }

  /** The watchdog scans. */
  lemma ScanRound(c: Config, t: Trace, x: Serial, id: Id, a: Accounts, now: int) returns (t': Trace)
    requires IsTrace(c, t) && Between(Last(t), x, [], a) && a.awaiting == map[x := {id}]
    requires x in a.lastResult && a.lastResult[x] + c.timeout < now
    ensures IsTrace(c, t') && t'.events == t.events + [Scan(now, {x}, [(x, id)])]
    ensures x in Last(t').accounts.broken && Awaits(Last(t').accounts, (x, id))
  {
    var s := Last(t);
    hide IsTrace;
    var s1 := s.(accounts := a.(broken := {x}), handoff := [(x, id)]);
    assert a.broken + {x} == {x};
    ThenIsTrace(c, t, Scan(now, {x}, [(x, id)]), s1);
    t' := Then(t, Scan(now, {x}, [(x, id)]), s1);
  }
}
