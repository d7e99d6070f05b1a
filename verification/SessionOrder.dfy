/** In which order the events of one session go out, over every interleaving. */
module SessionOrder {
  import opened Options
  import opened Sequences
  import opened SessionModel
  import opened SessionRuns

  // ---------------------------------------------------------------- one step

  /** What was emitted, followed by what is still to go, is what was sent, in order. */
  ghost predicate InOrder(s: System) {
    Messages(s.emitted) + Line(s) == s.accepted
  }

  /** The emits that do no harm: one of the oldest flush still holding something, or a failing one
      of the very last message. */
  predicate Harmless(s: System, ev: Event) {
    match ev
    case EmitOk(i) => forall j | 0 <= j < i && j < |s.flights| :: s.flights[j].left == []
    case EmitFails(i) =>
      && i < |s.flights| && |s.flights[i].left| == 1 && s.l.queue == []
      && forall j | i < j < |s.flights| :: s.flights[j].left == []
    case _ => true
  }

  lemma {:induction false} InFlightEmpty(flights: seq<Flight>)
    ensures InFlight(flights) == [] <==> forall j | 0 <= j < |flights| :: flights[j].left == []
  {
    if flights != [] {
      InFlightEmpty(flights[1..]);
      assert forall j | 0 < j < |flights| :: flights[j] == flights[1..][j - 1];
    }
  }

  /** In terms of the line: nothing stands before the message, or nothing behind it. */
  lemma HarmlessMeans(s: System, i: nat)
    requires Flying(s, i)
    ensures Before(s, i) == [] <==> Harmless(s, EmitOk(i))
    ensures Behind(s, i) == [] <==> Harmless(s, EmitFails(i))
  {
    BeforeEmpty(s, i);
    BehindEmpty(s, i);
    hide Before, Behind, Flying;
  }

  lemma BeforeEmpty(s: System, i: nat)
    requires Flying(s, i)
    ensures Before(s, i) == [] <==> forall j | 0 <= j < i :: s.flights[j].left == []
  {
    InFlightEmpty(s.flights[..i]);
    hide InFlight;
    assert forall j | 0 <= j < i :: s.flights[..i][j] == s.flights[j];
  }

  lemma BehindEmpty(s: System, i: nat)
    requires Flying(s, i)
    ensures Behind(s, i) == [] <==>
            |s.flights[i].left| == 1 && s.l.queue == [] && forall j | i < j < |s.flights| :: s.flights[j].left == []
  {
    InFlightEmpty(s.flights[i + 1..]);
    hide InFlight;
    assert forall j | i < j < |s.flights| :: s.flights[i + 1..][j - i - 1] == s.flights[j];
  }

  /** With distinct messages, moving `m` from the middle of a line to its front, or to its back,
      keeps the line exactly when it was there already. */
  lemma MovedIff(before: seq<Message>, m: Message, behind: seq<Message>)
    requires NoDuplicates(before + [m] + behind)
    ensures [m] + (before + behind) == before + [m] + behind <==> before == []
    ensures before + behind + [m] == before + [m] + behind <==> behind == []
  {
    var line := before + [m] + behind;
    assert line[|before|] == m;
    if before != [] {
      assert ([m] + (before + behind))[0] == m && line[0] != m;
    } else {
      assert [] + behind == behind && [] + [m] == [m];
    }
    if behind != [] {
      assert (before + behind + [m])[|line| - 1] == m && line[|line| - 1] != m;
    } else {
      assert before + [] == before;
    }
  }

  lemma EmitKeepsOrderIff(s: System, ev: Event, s': System)
    requires InOrder(s) && NoDuplicates(s.accepted) && Step(s, ev, s') && (ev.EmitOk? || ev.EmitFails?)
    ensures InOrder(s') <==> Harmless(s, ev)
  {
    EmitMoves(s, ev, s');
    HarmlessMeans(s, ev.i);
    var sent, m, before, behind := Messages(s.emitted), s.flights[ev.i].left[0], Before(s, ev.i), Behind(s, ev.i);
    assert s'.accepted == s.accepted == sent + (before + [m] + behind);
    hide InFlight, Before, Behind, Harmless, Line, Messages, Step, Flying;
    DistinctSuffix(sent, before + [m] + behind);
    MovedIff(before, m, behind);
    if ev.EmitOk? {
      SamePrefix(sent, [m] + (before + behind), before + [m] + behind);
      assert sent + [m] + (before + behind) == sent + ([m] + (before + behind));
    } else {
      SamePrefix(sent, before + behind + [m], before + [m] + behind);
      assert Messages(s'.emitted) == sent;
    }
  }

  lemma DistinctSuffix(prefix: seq<Message>, suffix: seq<Message>)
    requires NoDuplicates(prefix + suffix)
    ensures NoDuplicates(suffix)
  {
    assert forall j | 0 <= j < |suffix| :: suffix[j] == (prefix + suffix)[|prefix| + j];
  }

  /** One step keeps the order exactly when it is harmless. */
  lemma StepKeepsOrderIff(s: System, ev: Event, s': System)
    requires InOrder(s) && NoDuplicates(s.accepted) && Step(s, ev, s')
    ensures InOrder(s') <==> Harmless(s, ev)
  {
    if ev.Flush? {
      FlushKeepsLine(s, s');
    } else if ev.Send? {
      assert Line(s') == Line(s) + [ev.m];
    } else if ev.EmitOk? || ev.EmitFails? {
      EmitKeepsOrderIff(s, ev, s');
    }
  }

  lemma SamePrefix(prefix: seq<Message>, a: seq<Message>, b: seq<Message>)
    ensures prefix + a == prefix + b <==> a == b
  {
    if prefix + a == prefix + b {
      assert a == (prefix + a)[|prefix|..] == (prefix + b)[|prefix|..] == b;
    }
  }

  ghost function NewlySent(ev: Event): seq<Message> {
    match ev
    case Send(m) => [m]
    case _ => []
  }

  ghost function Outgoing(s: System): seq<Message> {
    Messages(s.emitted) + Line(s)
  }

  /** A harmless step changes what went out and what is to go only by what is newly sent. */
  lemma HarmlessKeepsOutgoing(s: System, ev: Event, s': System)
    requires Step(s, ev, s') && Harmless(s, ev)
    ensures Outgoing(s') == Outgoing(s) + NewlySent(ev) && s'.accepted == s.accepted + NewlySent(ev)
  {
    if ev.Flush? {
      FlushKeepsLine(s, s');
    } else if ev.Send? {
      assert Line(s') == Line(s) + [ev.m];
    } else if ev.EmitOk? || ev.EmitFails? {
      HarmlessEmit(s, ev, s');
    }
  }

  lemma HarmlessEmit(s: System, ev: Event, s': System)
    requires Step(s, ev, s') && Harmless(s, ev) && (ev.EmitOk? || ev.EmitFails?)
    ensures Outgoing(s') == Outgoing(s)
  {
    EmitMoves(s, ev, s');
    HarmlessMeans(s, ev.i);
    assert ev.EmitFails? ==> s'.emitted == s.emitted;
    EmitShifts(Messages(s.emitted), Before(s, ev.i), s.flights[ev.i].left[0], Behind(s, ev.i));
    hide Harmless, Before, Behind, Line, Messages, Step, Flying;
  }

  lemma EmitShifts(sent: seq<Message>, before: seq<Message>, m: Message, behind: seq<Message>)
    ensures before == [] ==> sent + [m] + (before + behind) == sent + (before + [m] + behind)
    ensures behind == [] ==> sent + (before + behind + [m]) == sent + (before + [m] + behind)
  {
    if behind == [] {
      assert before + behind + [m] == before + [m] + behind;
    }
  }

  // ---------------------------------------------------------------- runs

  ghost predicate HarmlessAt(run: Run, i: nat)
    requires i < |run.events| && i < |run.states|
  {
    Harmless(run.states[i], run.events[i])
  }

  lemma EachStepGrows(run: Run, i: nat)
    requires IsRun(run) && i < |run.events|
    ensures run.states[i].accepted <= run.states[i + 1].accepted
    ensures Messages(run.states[i].emitted) <= Messages(run.states[i + 1].emitted)
  {
    assert StepAt(run, i);
  }

  /** What was sent and what went out only grow. */
  lemma {:induction false} Grows(run: Run, n: nat, m: nat)
    requires IsRun(run) && n <= m < |run.states|
    ensures run.states[n].accepted <= run.states[m].accepted
    ensures Messages(run.states[n].emitted) <= Messages(run.states[m].emitted)
    decreases m
  {
    if n < m {
      hide Messages, StepAt, Init;
      Grows(run, n, m - 1);
      EachStepGrows(run, m - 1);
      PrefixOfPrefix(run.states[n].accepted, run.states[m - 1].accepted, run.states[m].accepted);
      PrefixOfPrefix(Messages(run.states[n].emitted), Messages(run.states[m - 1].emitted),
                     Messages(run.states[m].emitted));
    }
  }

  /** What the client has received is the beginning of what was sent. */
  ghost predicate SentInOrder(s: System) {
    Messages(s.emitted) <= s.accepted
  }

  lemma LengthsAgree(run: Run, n: nat)
    requires IsRun(run) && n < |run.states|
    ensures |Outgoing(run.states[n])| == |run.states[n].accepted|
    ensures |Messages(run.states[n].emitted)| <= |run.states[n].accepted|
  {
    RunKeeps(run, n);
    var s := run.states[n];
    hide Prompt, Addressed, Messages, Line;
    assert |multiset(s.accepted)| == |multiset(Messages(s.emitted)) + multiset(Line(s))|;
  }

  /** Order at the end is order throughout. */
  lemma InOrderThroughout(run: Run, n: nat, m: nat)
    requires IsRun(run) && n <= m < |run.states| && SentInOrder(run.states[m])
    ensures SentInOrder(run.states[n])
  {
    Grows(run, n, m);
    LengthsAgree(run, n);
    hide Messages, Outgoing;
    PrefixOfPrefix(Messages(run.states[n].emitted), Messages(run.states[m].emitted), run.states[m].accepted);
  }

  lemma StepKeepsInOrder(run: Run, i: nat)
    requires IsRun(run) && i < |run.events| && InOrder(run.states[i]) && HarmlessAt(run, i)
    ensures InOrder(run.states[i + 1])
  {
    assert StepAt(run, i);
    HarmlessKeepsOutgoing(run.states[i], run.events[i], run.states[i + 1]);
    hide Messages, Line, Step, Harmless;
  }

  /** As long as its emits are harmless, a run sends in order. */
  lemma {:induction false} HarmlessInOrder(run: Run, n: nat)
    requires IsRun(run) && n < |run.states| && forall i | 0 <= i < n :: HarmlessAt(run, i)
    ensures InOrder(run.states[n]) && SentInOrder(run.states[n])
    decreases n
  {
    if n > 0 {
      hide HarmlessAt, InOrder, SentInOrder, StepAt, Init;
      HarmlessInOrder(run, n - 1);
      StepKeepsInOrder(run, n - 1);
    }
    InOrderMeansPrefix(run.states[n]);
  }

  lemma InOrderMeansPrefix(s: System)
    requires InOrder(s)
    ensures SentInOrder(s)
  {
    hide Messages, Line;
  }

  lemma {:induction false} FirstHarmful(run: Run, n: nat) returns (i: nat)
    requires IsRun(run) && n < |run.events| && !HarmlessAt(run, n)
    ensures i <= n && !HarmlessAt(run, i) && forall k | 0 <= k < i :: HarmlessAt(run, k)
    decreases n
  {
    if k: nat :| k < n && !HarmlessAt(run, k) {
      i := FirstHarmful(run, k);
    } else {
      i := n;
    }
  }

  /** Emitting from a younger flush puts a message in the place of one that was sent before it. */
  lemma HarmfulEmit(run: Run, i: nat)
    requires IsRun(run) && i < |run.events| && InOrder(run.states[i]) && run.events[i].EmitOk? && !HarmlessAt(run, i)
    requires NoDuplicates(run.states[i].accepted)
    ensures !SentInOrder(run.states[i + 1])
  {
    var s, ev, s' := run.states[i], run.events[i], run.states[i + 1];
    assert StepAt(run, i);
    EmitMoves(s, ev, s');
    HarmlessMeans(s, ev.i);
    var sent, m, before, behind := Messages(s.emitted), s.flights[ev.i].left[0], Before(s, ev.i), Behind(s, ev.i);
    assert s'.accepted == s.accepted == sent + (before + [m] + behind);
    hide Harmless, Before, Behind, Line, Messages, Step, Flying;
    DistinctSuffix(sent, before + [m] + behind);
    assert (before + [m] + behind)[0] == before[0] && (before + [m] + behind)[|before|] == m;
    assert (sent + [m])[|sent|] == m && s'.accepted[|sent|] == before[0];
  }

  /** Without failing emits, events go out in the order in which they were sent if and only if every
      one of them is emitted by the oldest flush that still holds any. */
  lemma OrderIffOldest(run: Run, n: nat)
    requires IsRun(run) && n < |run.states| && NoDuplicates(run.states[n].accepted)
    requires forall i | 0 <= i < n :: !run.events[i].EmitFails?
    ensures SentInOrder(run.states[n]) <==> forall i | 0 <= i < n :: HarmlessAt(run, i)
  {
    if i: nat :| i < n && !HarmlessAt(run, i) {
      var first := FirstHarmful(run, i);
      assert run.events[first].EmitOk?;
      HarmlessInOrder(run, first);
      Grows(run, first, n);
      DistinctPrefix(run.states[first].accepted, run.states[n].accepted);
      HarmfulEmit(run, first);
      if SentInOrder(run.states[n]) {
        InOrderThroughout(run, first + 1, n);
      }
    } else {
      HarmlessInOrder(run, n);
    }
  }

  lemma DistinctPrefix(prefix: seq<Message>, all: seq<Message>)
    requires prefix <= all && NoDuplicates(all)
    ensures NoDuplicates(prefix)
  {
    assert forall i | 0 <= i < |prefix| :: prefix[i] == all[i];
  }

  // ---------------------------------------------------------------- failing emits

  lemma StepKeepsDisorder(run: Run, i: nat)
    requires IsRun(run) && i < |run.events| && !InOrder(run.states[i]) && HarmlessAt(run, i)
    ensures !InOrder(run.states[i + 1])
  {
    assert StepAt(run, i);
    var s, s', more := run.states[i], run.states[i + 1], NewlySent(run.events[i]);
    HarmlessKeepsOutgoing(s, run.events[i], s');
    LengthsAgree(run, i);
    hide Messages, Line, Step, Harmless, NewlySent;
    assert Outgoing(s) == Outgoing(s')[..|Outgoing(s)|] && s.accepted == s'.accepted[..|s.accepted|];
  }

  lemma {:induction false} DisorderLasts(run: Run, i: nat, n: nat)
    requires IsRun(run) && i <= n < |run.states| && !InOrder(run.states[i])
    requires forall k | i <= k < n :: HarmlessAt(run, k)
    ensures !InOrder(run.states[n])
    decreases n
  {
    if i < n {
      hide HarmlessAt, InOrder, StepAt, Init;
      DisorderLasts(run, i, n - 1);
      StepKeepsDisorder(run, n - 1);
    }
  }

  lemma NothingLeftMeans(run: Run, n: nat)
    requires IsRun(run) && n < |run.states| && Line(run.states[n]) == []
    ensures InOrder(run.states[n]) <==> SentInOrder(run.states[n])
  {
    LengthsAgree(run, n);
    var s := run.states[n];
    hide Messages, Line;
    assert Messages(s.emitted) + [] == Messages(s.emitted);
  }

  /** One emit that does harm, among otherwise harmless ones, is enough: once everything is out, it
      did not go out in order. */
  lemma OneHarmIsEnough(run: Run, i: nat, n: nat)
    requires IsRun(run) && i < n < |run.states| && NoDuplicates(run.states[i].accepted)
    requires (forall k | 0 <= k < n && k != i :: HarmlessAt(run, k)) && !HarmlessAt(run, i)
    requires Line(run.states[n]) == []
    ensures !SentInOrder(run.states[n])
  {
    HarmlessInOrder(run, i);
    assert StepAt(run, i);
    StepKeepsOrderIff(run.states[i], run.events[i], run.states[i + 1]);
    hide Line;
    DisorderLasts(run, i + 1, n);
    NothingLeftMeans(run, n);
  }

  /** No flush takes the queue while an older one still holds messages, and no emit fails. */
  ghost predicate CalmAt(run: Run, i: nat)
    requires i < |run.events| && i < |run.states|
  {
    && !run.events[i].EmitFails?
    && (run.events[i].Flush? && Takes(run.states[i].l) ==> InFlight(run.states[i].flights) == [])
  }

  /** At most the newest flush holds anything. */
  ghost predicate OneFlight(s: System) {
    forall j | 0 <= j < |s.flights| - 1 :: s.flights[j].left == []
  }

  /** With calm flushes and nothing failing, events go out in the order in which they were sent;
      here the messages need not be distinct. */
  lemma {:induction false} CalmRunInOrder(run: Run, n: nat)
    requires IsRun(run) && n < |run.states|
    requires forall i | 0 <= i < n :: CalmAt(run, i)
    ensures InOrder(run.states[n]) && OneFlight(run.states[n])
    ensures Messages(run.states[n].emitted) <= run.states[n].accepted
  {
    if n > 0 {
      CalmRunInOrder(run, n - 1);
      assert StepAt(run, n - 1) && CalmAt(run, n - 1);
      CalmStep(run.states[n - 1], run.events[n - 1], run.states[n]);
    }
  }

  lemma CalmStep(s: System, ev: Event, s': System)
    requires InOrder(s) && OneFlight(s) && Step(s, ev, s') && !ev.EmitFails?
    requires ev.Flush? && Takes(s.l) ==> InFlight(s.flights) == []
    ensures InOrder(s') && OneFlight(s')
  {
    if ev.Flush? {
      InFlightEmpty(s.flights);
    }
    assert Harmless(s, ev);
    HarmlessKeepsOutgoing(s, ev, s');
    hide InFlight, Messages, Line;
  }

  // ---------------------------------------------------------------- continuing a run

  ghost function Last(run: Run): System
    requires run.states != []
  {
    run.states[|run.states| - 1]
  }

  ghost function Then(run: Run, ev: Event, s: System): Run {
    Run(run.states + [s], run.events + [ev])
  }

  lemma ThenIsRun(run: Run, ev: Event, s: System)
    requires IsRun(run) && Step(Last(run), ev, s)
    ensures IsRun(Then(run, ev, s)) && Last(Then(run, ev, s)) == s
  {
    hide Step;
    var longer := Then(run, ev, s);
    forall i | 0 <= i < |longer.events| ensures StepAt(longer, i) {
      if i < |run.events| {
        assert StepAt(run, i);
      }
    }
  }

  /** The flushes under way emit all they hold, oldest first. */
  lemma {:induction false} DrainFlights(run: Run) returns (longer: Run)
    requires IsRun(run)
    ensures IsRun(longer) && run.states <= longer.states && run.events <= longer.events
    ensures InFlight(Last(longer).flights) == [] && Last(longer).l == Last(run).l
    ensures Last(longer).accepted == Last(run).accepted && Last(longer).pending == Last(run).pending
    ensures forall k | |run.events| <= k < |longer.events| :: longer.events[k].EmitOk? && HarmlessAt(longer, k)
    decreases |InFlight(Last(run).flights)|
  {
    longer := run;
    var s := Last(run);
    if InFlight(s.flights) != [] {
      var i := OldestFlying(s);
      var s' := s.(flights := Landed(s, i), emitted := s.emitted + [(s.flights[i].socket, s.flights[i].left[0])]);
      LandedInFlight(s, i);
      ThenIsRun(run, EmitOk(i), s');
      var next := Then(run, EmitOk(i), s');
      hide Step, InFlight, Landed;
      assert HarmlessAt(next, |run.events|);
      longer := DrainFlights(next);
      StillHarmless(next, longer, |run.events|);
    }
  }

  lemma StillHarmless(run: Run, longer: Run, k: nat)
    requires IsRun(run) && IsRun(longer) && run.states <= longer.states && run.events <= longer.events
    requires k < |run.events| && HarmlessAt(run, k)
    ensures HarmlessAt(longer, k)
  {
    assert longer.states[k] == run.states[k] && longer.events[k] == run.events[k];
  }

  lemma OldestFlying(s: System) returns (i: nat)
    requires InFlight(s.flights) != []
    ensures Flying(s, i) && Harmless(s, EmitOk(i))
  {
    InFlightEmpty(s.flights);
    i := FirstFlying(s, 0);
  }

  lemma {:induction false} FirstFlying(s: System, from: nat) returns (i: nat)
    requires from <= |s.flights| && forall j | 0 <= j < from :: s.flights[j].left == []
    requires exists j | 0 <= j < |s.flights| :: s.flights[j].left != []
    ensures Flying(s, i) && Harmless(s, EmitOk(i))
    decreases |s.flights| - from
  {
    if s.flights[from].left != [] {
      i := from;
    } else {
      i := FirstFlying(s, from + 1);
    }
  }

  /** The flushes under way land, the session is connected, and what is queued is flushed, too. */
  lemma DrainAll(run: Run, socket: SocketId) returns (longer: Run)
    requires IsRun(run)
    ensures IsRun(longer) && run.states <= longer.states && run.events <= longer.events
    ensures Line(Last(longer)) == [] && Last(longer).accepted == Last(run).accepted
    ensures forall k | |run.events| <= k < |longer.events| :: !longer.events[k].EmitFails? && HarmlessAt(longer, k)
  {
    hide StepAt, Init;
    var r1 := DrainFlights(run);
    var r2 := QueueTaken(r1, socket);
    longer := DrainFlights(r2);
    forall k | |run.events| <= k < |longer.events|
      ensures !longer.events[k].EmitFails? && HarmlessAt(longer, k)
    {
      if k < |r1.events| {
        StillHarmless(r1, longer, k);
        assert r1.events[k] == r2.events[k] == longer.events[k];
      } else if k < |r2.events| {
        StillHarmless(r2, longer, k);
        assert r2.events[k] == longer.events[k];
      }
    }
    assert [] + Last(longer).l.queue == [];
  }

  lemma QueueTaken(run: Run, socket: SocketId) returns (longer: Run)
    requires IsRun(run)
    ensures IsRun(longer) && run.states <= longer.states && longer.events == run.events + [SetSocket(socket), Flush]
    ensures Last(longer).l.queue == [] && Last(longer).accepted == Last(run).accepted
    ensures forall k | |run.events| <= k < |longer.events| :: HarmlessAt(longer, k)
  {
    var s := Last(run);
    var s1 := s.(l := s.l.(socket := Some(socket)), pending := s.pending + 1, sockets := s.sockets + {socket});
    ThenIsRun(run, SetSocket(socket), s1);
    var r1 := Then(run, SetSocket(socket), s1);
    var s2 := s1.(l := AfterTake(s1.l), pending := s.pending,
                  flights := if Takes(s1.l) then s1.flights + [Flight(socket, s1.l.queue)] else s1.flights,
                  requeued := if Takes(s1.l) then [] else s1.requeued);
    hide IsRun;
    ThenIsRun(r1, Flush, s2);
    longer := Then(r1, Flush, s2);
  }

  /** After a harmful failure of distinct messages the run can go on, with no further failure, to a
      point where everything is out, and out of order. */
  lemma HarmfulFailureReorders(run: Run, socket: SocketId) returns (longer: Run)
    requires IsRun(run) && |run.events| > 0 && run.events[|run.events| - 1].EmitFails?
    requires !HarmlessAt(run, |run.events| - 1) && forall k | 0 <= k < |run.events| - 1 :: HarmlessAt(run, k)
    requires NoDuplicates(Last(run).accepted)
    ensures IsRun(longer) && run.states <= longer.states && run.events <= longer.events
    ensures forall k | |run.events| <= k < |longer.events| :: !longer.events[k].EmitFails?
    ensures Line(Last(longer)) == [] && !SentInOrder(Last(longer))
  {
    var i := |run.events| - 1;
    longer := DrainAll(run, socket);
    hide Line, StepAt, Init;
    Grows(run, i, i + 1);
    DistinctPrefix(run.states[i].accepted, Last(run).accepted);
    assert longer.states[i] == run.states[i] && longer.events[i] == run.events[i];
    forall k | 0 <= k < |longer.events| && k != i ensures HarmlessAt(longer, k) {
      if k < i {
        StillHarmless(run, longer, k);
      }
    }
    OneHarmIsEnough(longer, i, |longer.events|);
  }

  /** The run goes on without doing further harm. */
  ghost predicate GoesOn(run: Run, longer: Run) {
    && IsRun(longer) && run.states <= longer.states && run.events <= longer.events
    && forall k | |run.events| <= k < |longer.events| :: HarmlessAt(longer, k)
  }

  lemma {:induction false} OrderLasts(run: Run, i: nat, n: nat)
    requires IsRun(run) && i <= n < |run.states| && InOrder(run.states[i])
    requires forall k | i <= k < n :: HarmlessAt(run, k)
    ensures InOrder(run.states[n])
    decreases n
  {
    if i < n {
      hide HarmlessAt, InOrder, StepAt, Init;
      OrderLasts(run, i, n - 1);
      StepKeepsInOrder(run, n - 1);
    }
  }

  lemma GoesOnInOrder(run: Run, longer: Run)
    requires IsRun(run) && InOrder(Last(run)) && GoesOn(run, longer)
    ensures SentInOrder(Last(longer))
  {
    hide HarmlessAt, InOrder, StepAt, Init;
    assert longer.states[|run.events|] == Last(run);
    OrderLasts(longer, |run.events|, |longer.events|);
    InOrderMeansPrefix(Last(longer));
  }

  lemma GoesOnDisordered(run: Run) returns (longer: Run)
    requires IsRun(run) && !InOrder(Last(run))
    ensures GoesOn(run, longer) && !SentInOrder(Last(longer))
  {
    longer := DrainAll(run, "");
    hide HarmlessAt, InOrder, StepAt, Init;
    assert longer.states[|run.events|] == Last(run);
    DisorderLasts(longer, |run.events|, |longer.events|);
    NothingLeftMeans(longer, |longer.events|);
  }

  /** Whatever has happened and failed so far: as long as no further harm is done events will have gone out in
      order, if and only if what went out, followed by what is still to go, is in send order now. */
  lemma InOrderIff(run: Run)
    requires IsRun(run)
    ensures InOrder(Last(run)) <==> forall longer | GoesOn(run, longer) :: SentInOrder(Last(longer))
  {
    hide InOrder, SentInOrder, StepAt, Init, HarmlessAt;
    if InOrder(Last(run)) {
      forall longer | GoesOn(run, longer) ensures SentInOrder(Last(longer)) {
        GoesOnInOrder(run, longer);
      }
    } else {
      var longer := GoesOnDisordered(run);
    }
  }

  /** A connected session whose flush has taken `a` before `b` was sent. */
  lemma SecondSentLate(k: SocketId, a: Message, b: Message) returns (run: Run)
    ensures IsRun(run) && run.events == [SetSocket(k), Send(a), Flush, Send(b)]
    ensures Last(run) == System(Local([b], Some(k)), [Flight(k, [a])], 2, [a, b], [], [], {k})
  {
    run := Run([System(Local([], None), [], 0, [], [], [], {})], []);
    var s1 := System(Local([], Some(k)), [], 1, [], [], [], {k});
    ThenIsRun(run, SetSocket(k), s1);
    run := Then(run, SetSocket(k), s1);
    var s2 := System(Local([a], Some(k)), [], 2, [a], [], [], {k});
    ThenIsRun(run, Send(a), s2);
    run := Then(run, Send(a), s2);
    var s3 := System(Local([], Some(k)), [Flight(k, [a])], 1, [a], [], [], {k});
    ThenIsRun(run, Flush, s3);
    run := Then(run, Flush, s3);
    var s4 := System(Local([b], Some(k)), [Flight(k, [a])], 2, [a, b], [], [], {k});
    ThenIsRun(run, Send(b), s4);
    run := Then(run, Send(b), s4);
  }

  /** Send order is not kept in general: of two flushes at once, the later one may emit first. */
  lemma OverlapReorders(k: SocketId, a: Message, b: Message) returns (run: Run)
    ensures IsRun(run) && run.events == [SetSocket(k), Send(a), Flush, Send(b), Flush, EmitOk(1), EmitOk(0)]
    ensures Last(run).accepted == [a, b] && Messages(Last(run).emitted) == [b, a]
  {
    run := SecondSentLate(k, a, b);
    var s5 := Last(run).(l := Local([], Some(k)), pending := 1, flights := [Flight(k, [a]), Flight(k, [b])]);
    hide IsRun;
    ThenIsRun(run, Flush, s5);
    run := Then(run, Flush, s5);
    assert [b][1..] == [];
    assert Landed(s5, 1) == [Flight(k, [a]), Flight(k, [])];
    var s6 := s5.(flights := Landed(s5, 1), emitted := [(k, b)]);
    ThenIsRun(run, EmitOk(1), s6);
    run := Then(run, EmitOk(1), s6);
    var s7 := s6.(flights := Landed(s6, 0), emitted := [(k, b), (k, a)]);
    ThenIsRun(run, EmitOk(0), s7);
    run := Then(run, EmitOk(0), s7);
  }

  /** Nor if flushes never overlap but an emit fails while another message is queued. */
  lemma FailureReorders(k: SocketId, a: Message, b: Message) returns (run: Run)
    ensures IsRun(run)
    ensures run.events == [SetSocket(k), Send(a), Flush, Send(b), EmitFails(0), Flush, EmitOk(1), EmitOk(1)]
    ensures Last(run).accepted == [a, b] && Messages(Last(run).emitted) == [b, a]
  {
    run := SecondSentLate(k, a, b);
    hide IsRun;
    var s5 := Last(run).(l := Local([b, a], Some(k)), flights := [Flight(k, [])], requeued := [a]);
    assert [a][1..] == [];
    assert Landed(Last(run), 0) == [Flight(k, [])];
    ThenIsRun(run, EmitFails(0), s5);
    run := Then(run, EmitFails(0), s5);
    var s6 := s5.(l := Local([], Some(k)), pending := 1, flights := [Flight(k, []), Flight(k, [b, a])], requeued := []);
    ThenIsRun(run, Flush, s6);
    run := Then(run, Flush, s6);
    assert Landed(s6, 1) == [Flight(k, []), Flight(k, [a])];
    var s7 := s6.(flights := Landed(s6, 1), emitted := [(k, b)]);
    ThenIsRun(run, EmitOk(1), s7);
    run := Then(run, EmitOk(1), s7);
    var s8 := s7.(flights := Landed(s7, 1), emitted := [(k, b), (k, a)]);
    ThenIsRun(run, EmitOk(1), s8);
    run := Then(run, EmitOk(1), s8);
  }

  /** A second failure can undo the first: there are runs in order whose failures all did harm. */
  lemma SecondFailureRestores(k: SocketId, a: Message, b: Message) returns (run: Run)
    requires a != b
    ensures IsRun(run)
    ensures run.events == [SetSocket(k), Send(a), Flush, Send(b), EmitFails(0), Flush, EmitFails(1), EmitOk(1),
                           Flush, EmitOk(2)]
    ensures |run.states| == 11 && !HarmlessAt(run, 4) && !HarmlessAt(run, 6)
    ensures Last(run).accepted == [a, b] && Messages(Last(run).emitted) == [a, b]
  {
    var first := SecondSentLate(k, a, b);
    var middle := FailBoth(first, k, a, b);
    run := FinishInOrder(middle, k, a, b);
    assert run.states[4] == middle.states[4] && run.states[6] == middle.states[6];
    hide IsRun;
  }

  lemma FailBoth(run: Run, k: SocketId, a: Message, b: Message) returns (longer: Run)
    requires IsRun(run) && run.events == [SetSocket(k), Send(a), Flush, Send(b)]
    requires Last(run) == System(Local([b], Some(k)), [Flight(k, [a])], 2, [a, b], [], [], {k})
    ensures IsRun(longer)
    ensures longer.events == [SetSocket(k), Send(a), Flush, Send(b), EmitFails(0), Flush, EmitFails(1)]
    ensures longer.states[4].l.queue == [b] && longer.states[6].flights == [Flight(k, []), Flight(k, [b, a])]
    ensures Last(longer) ==
            System(Local([b], Some(k)), [Flight(k, []), Flight(k, [a])], 1, [a, b], [], [b], {k})
  {
    var s4 := Last(run);
    assert [a][1..] == [] && [b, a][1..] == [a];
    assert Landed(s4, 0) == [Flight(k, [])];
    var s5 := s4.(l := Local([b, a], Some(k)), flights := [Flight(k, [])], requeued := [a]);
    ThenIsRun(run, EmitFails(0), s5);
    longer := Then(run, EmitFails(0), s5);
    var s6 := s5.(l := Local([], Some(k)), pending := 1, flights := [Flight(k, []), Flight(k, [b, a])], requeued := []);
    ThenIsRun(longer, Flush, s6);
    longer := Then(longer, Flush, s6);
    hide IsRun;
    assert Landed(s6, 1) == [Flight(k, []), Flight(k, [a])];
    var s7 := s6.(l := Local([b], Some(k)), flights := Landed(s6, 1), requeued := [b]);
    ThenIsRun(longer, EmitFails(1), s7);
    longer := Then(longer, EmitFails(1), s7);
  }

  lemma FinishInOrder(run: Run, k: SocketId, a: Message, b: Message) returns (longer: Run)
    requires IsRun(run)
    requires Last(run) == System(Local([b], Some(k)), [Flight(k, []), Flight(k, [a])], 1, [a, b], [], [b], {k})
    ensures IsRun(longer) && run.states <= longer.states && |longer.states| == |run.states| + 3
    ensures longer.events == run.events + [EmitOk(1), Flush, EmitOk(2)]
    ensures Last(longer).accepted == [a, b] && Messages(Last(longer).emitted) == [a, b]
  {
    var s7 := Last(run);
    assert [a][1..] == [] && [b][1..] == [];
    assert Landed(s7, 1) == [Flight(k, []), Flight(k, [])];
    var s8 := s7.(flights := Landed(s7, 1), emitted := [(k, a)]);
    ThenIsRun(run, EmitOk(1), s8);
    longer := Then(run, EmitOk(1), s8);
    hide IsRun;
    var s9 := s8.(l := Local([], Some(k)), pending := 0, requeued := [],
                  flights := [Flight(k, []), Flight(k, []), Flight(k, [b])]);
    ThenIsRun(longer, Flush, s9);
    longer := Then(longer, Flush, s9);
    var s10 := s9.(flights := Landed(s9, 2), emitted := [(k, a), (k, b)]);
    ThenIsRun(longer, EmitOk(2), s10);
    longer := Then(longer, EmitOk(2), s10);
  }
}
