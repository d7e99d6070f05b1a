/** In which order a consumer gets the results of a batch factory, and what a single result does. */
module FactoryOrder {
  import opened Sequences
  import opened EvaluationBundleModel
  import opened BatchFactoryModel
  import opened FactoryRuns

  /** Everything a consumer has got or is about to get, in order. */
  ghost function Delivered(s: System): seq<Result> {
    s.yielded + s.accounts.results
  }

  /** A result that is awaited is the next one to be delivered, nothing else changes hands, and the device
      counts as heard of; any other result changes nothing at all. */
  lemma ArriveMeans(c: Config, s: System, x: Serial, id: Id, value: string, now: int, s': System)
    requires 0 < c.b && Step(c, s, Arrive(x, id, value, now), s')
    ensures !Awaits(s.accounts, (x, id)) ==> s' == s
    ensures Awaits(s.accounts, (x, id)) ==>
              && Delivered(s') == Delivered(s) + [Result(x, id, Value(value))]
              && (forall p :: Awaits(s'.accounts, p) <==> Awaits(s.accounts, p) && p != (x, id))
              && x in s'.accounts.lastResult && s'.accounts.lastResult[x] == now
              && (forall y | y != x :: (y in s'.accounts.lastResult <==> y in s.accounts.lastResult))
              && (forall y | y in s.accounts.lastResult && y != x ::
                    s'.accounts.lastResult[y] == s.accounts.lastResult[y])
              && s'.accounts.broken == s.accounts.broken && s'.yielded == s.yielded
  {
    if Awaits(s.accounts, (x, id)) {
      assert s.yielded + (s.accounts.results + [Result(x, id, Value(value))]) ==
             Delivered(s) + [Result(x, id, Value(value))];
    }
  }

  lemma StepDeliversAtEnd(c: Config, s: System, ev: Event, s': System)
    requires 0 < c.b && Step(c, s, ev, s')
    ensures Delivered(s) <= Delivered(s') && s.yielded <= s'.yielded
  {
    hide Packs, Registered, PairsOf, FailAll, NewlyExpired;
    match ev
    case Register(now, bad) => FailAllDelivers(Registered(s.accounts, s.pending.value, now), bad, now);
      RegisteredResults(s, now);
    case Arrive(x, id, value, now) => ProcessDelivers(s.accounts, x, id, Value(value), now);
    case FailListed(now) =>
      ProcessDelivers(s.accounts, s.handoff[0].0, s.handoff[0].1, EvaluationFailed, now);
    case Drain => assert s'.yielded + [] == s'.yielded;
    case TakeBatch(_) =>
    case Scan(_, _, _) =>
  }

  lemma RegisteredResults(s: System, now: int)
    requires s.pending.Some?
    ensures Registered(s.accounts, s.pending.value, now).results == s.accounts.results
  {
  }

  lemma DeliversAtEnd(c: Config, t: Trace, i: nat)
    requires IsTrace(c, t) && i < |t.events|
    ensures Delivered(t.states[i]) <= Delivered(t.states[i + 1]) && t.states[i].yielded <= t.states[i + 1].yielded
  {
    hide Delivered, Step;
    assert StepOf(c, t, i);
    StepDeliversAtEnd(c, t.states[i], t.events[i], t.states[i + 1]);
  }

  /** Over every run results are delivered in the order in which they were processed: what is delivered or
      waits to be, at some point, is the beginning of what is delivered or waits at any later one. */
  lemma {:induction false} ProcessedInOrder(c: Config, t: Trace, n: nat, m: nat)
    requires IsTrace(c, t) && n <= m < |t.states|
    ensures Delivered(t.states[n]) <= Delivered(t.states[m]) && t.states[n].yielded <= t.states[m].yielded
    ensures t.states[n].yielded <= Delivered(t.states[m])
    decreases m
  {
    if n < m {
      ProcessedInOrder(c, t, n, m - 1);
      hide StepOf, Init, Sane, Delivered;
      DeliversAtEnd(c, t, m - 1);
      PrefixOfPrefix(Delivered(t.states[n]), Delivered(t.states[m - 1]), Delivered(t.states[m]));
      PrefixOfPrefix(t.states[n].yielded, t.states[m - 1].yielded, t.states[m].yielded);
      PrefixOfPrefix(t.states[n].yielded, Delivered(t.states[m - 1]), Delivered(t.states[m]));
    }
  }
}
