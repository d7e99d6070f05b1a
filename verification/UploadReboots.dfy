/** What becomes of a reboot of an upload pipeline: copies of the bitstream it interrupts, and whether it
    gets through at all. */
module UploadReboots {
  import opened Options
  import opened MappedQueuesModel
  import opened UploadModel
  import opened UploadRuns

  ghost function Last(run: Run): System
    requires run.states != []
  {
    run.states[|run.states| - 1]
  }

  ghost function Then(run: Run, ev: Event, s: System): Run {
    Run(run.states + [s], run.events + [ev])
  }

  lemma ThenIsRun(flushAt: nat, run: Run, ev: Event, s: System)
    requires IsRun(flushAt, run) && Step(flushAt, Last(run), ev, s)
    ensures IsRun(flushAt, Then(run, ev, s)) && Last(Then(run, ev, s)) == s
  {
    hide Step, Init;
    var longer := Then(run, ev, s);
    forall i | 0 <= i < |longer.events| ensures StepAt(flushAt, longer, i) {
      if i < |run.events| {
        assert StepAt(flushAt, run, i);
      }
    }
  }

  /** A pipeline that works on its only bitstream. */
  lemma AtWork(flushAt: nat, b: Bitstream) returns (run: Run)
    ensures IsRun(flushAt, run) && run.events == [Enqueue([b]), Pop, Assign]
    ensures Last(run) ==
            System(Local([], false, Some(b), EmptyQueues()), Working(b), NoReboot, [b], [], [], 0, false)
  {
    run := Run([System(Local([], false, None, EmptyQueues()), AtLoop, NoReboot, [], [], [], 0, false)], []);
    assert IsRun(flushAt, run);
    hide IsRun, Init;
    var s1 := System(Local([b], false, None, EmptyQueues()), AtLoop, NoReboot, [b], [], [], 0, false);
    ThenIsRun(flushAt, run, Enqueue([b]), s1);
    run := Then(run, Enqueue([b]), s1);
    var s2 := System(Local([], false, None, EmptyQueues()), Taken(b), NoReboot, [b], [], [], 0, false);
    ThenIsRun(flushAt, run, Pop, s2);
    run := Then(run, Pop, s2);
    var s3 := System(Local([], false, Some(b), EmptyQueues()), Working(b), NoReboot, [b], [], [], 0, false);
    ThenIsRun(flushAt, run, Assign, s3);
    run := Then(run, Assign, s3);
  }

  /** An outside reboot catches it at its work. */
  lemma CaughtAtWork(flushAt: nat, b: Bitstream) returns (run: Run)
    ensures IsRun(flushAt, run)
    ensures run.events == [Enqueue([b]), Pop, Assign, ExternalReboot, Capture]
    ensures Last(run) ==
            System(Local([], true, Some(b), EmptyQueues()), Working(b), Ready([b]), [b], [], [], 1, false)
  {
    run := AtWork(flushAt, b);
    hide IsRun, Init;
    var s4 := System(Local([], true, Some(b), EmptyQueues()), Working(b), Shut([]), [b], [], [], 1, false);
    ThenIsRun(flushAt, run, ExternalReboot, s4);
    run := Then(run, ExternalReboot, s4);
    var s5 := s4.(reboot := Ready([b]));
    assert HandedOver([], Some(b)) == [b];
    ThenIsRun(flushAt, run, Capture, s5);
    run := Then(run, Capture, s5);
  }

  /** Exactly once fails in a reachable way: the bitstream is evaluated, and the next state has it in
      its queue again. */
  lemma OutsideRebootDuplicates(flushAt: nat, b: Bitstream, value: string) returns (run: Run)
    ensures IsRun(flushAt, run)
    ensures run.events == [Enqueue([b]), Pop, Assign, ExternalReboot, Capture, Record(value), Clear,
                           Flush(false, false), SeeShutdown, Install]
    ensures Last(run).accepted == [b] && Last(run).completed == [(b, value)] && Last(run).l.queue == [b]
  {
    run := CaughtAtWork(flushAt, b);
    var s5 := Last(run);
    hide IsRun, Appended;
    var s6 := s5.(l := AfterResult(s5.l, b, value), phase := Recorded(b), completed := [(b, value)]);
    ThenIsRun(flushAt, run, Record(value), s6);
    run := Then(run, Record(value), s6);
    var s7 := s6.(l := s6.l.(current := None), phase := Cleared);
    ThenIsRun(flushAt, run, Clear, s7);
    run := Then(run, Clear, s7);
    var s8 := s7.(phase := AtLoop);
    ThenIsRun(flushAt, run, Flush(false, false), s8);
    run := Then(run, Flush(false, false), s8);
    var s9 := s8.(phase := Exited);
    ThenIsRun(flushAt, run, SeeShutdown, s9);
    run := Then(run, SeeShutdown, s9);
    var s10 := s9.(l := Local([b], false, None, s9.l.results), phase := AtLoop, reboot := NoReboot);
    ThenIsRun(flushAt, run, Install, s10);
    run := Then(run, Install, s10);
  }

  // ---------------------------------------------------------------- getting through

  /** A reboot is under way. */
  ghost predicate UnderWay(s: System) {
    !s.reboot.NoReboot? || s.phase.Rebooting?
  }

  /** The run thread wants the device's lock for a reboot of its own, and the outside reboot that holds
      the lock waits for the run thread. */
  ghost predicate Deadlocked(s: System) {
    s.phase.Rebooting? && !s.reboot.NoReboot?
  }

  /** How many steps a reboot can still take. */
  ghost function StepsLeft(s: System): nat {
    (match s.phase
     case Taken(_) => 6
     case Working(_) => 5
     case Recorded(_) => 4
     case Cleared => 3
     case AtLoop => 2
     case Rebooting(_, _) => 1
     case Exited => 0)
    + (match s.reboot
       case NoReboot => 2
       case Shut(_) => 1
       case Ready(_) => 0)
  }

  /** While a reboot is under way every step leaves one step less, but for bitstreams that are turned
      away, until the next state takes over. */
  lemma RebootAdvances(flushAt: nat, s: System, ev: Event, s': System)
    requires Shaped(s) && UnderWay(s) && Step(flushAt, s, ev, s') && !ev.Install?
    ensures UnderWay(s')
    ensures if ev.Enqueue? then s' == s else StepsLeft(s') < StepsLeft(s)
  {
  }

  /** The steps of the two threads that move a reboot on: no new request, no failure, no other reboot. */
  ghost predicate Moves(ev: Event) {
    !ev.Enqueue? && !ev.UploadFails? && !ev.ExternalReboot?
  }

  /** Unless the two threads wait for each other, one of them can move on. */
  lemma SomeoneMoves(flushAt: nat, s: System) returns (ev: Event, s': System)
    requires Shaped(s) && UnderWay(s) && !Deadlocked(s)
    ensures Step(flushAt, s, ev, s') && Moves(ev)
  {
    if s.phase.Rebooting? {
      ev, s' := Switch, s.(reboot := Ready(s.phase.bitstreams), phase := Exited);
    } else if s.reboot.Shut? {
      ev, s' := Capture, s.(reboot := Ready(HandedOver(s.reboot.bitstreams, s.l.current)));
    } else {
      match s.phase
      case Taken(b) => ev, s' := Assign, s.(l := s.l.(current := Some(b)), phase := Working(b));
      case Working(b) =>
        ev, s' := Record(""), s.(l := AfterResult(s.l, b, ""), phase := Recorded(b),
                                 completed := s.completed + [(b, "")]);
      case Recorded(b) => ev, s' := Clear, s.(l := s.l.(current := None), phase := Cleared);
      case Cleared => ev, s' := Flush(false, false), s.(phase := AtLoop);
      case AtLoop => ev, s' := SeeShutdown, s.(phase := Exited);
      case Exited =>
        ev, s' := Install,
          s.(l := Local(s.reboot.bitstreams, false, None, s.l.results), phase := AtLoop, reboot := NoReboot);
    }
  }

  /** One reboot can only come in the way of another: an upload fails while an outside reboot waits for
      the run thread, or an outside reboot gets the lock before the run thread does. */
  ghost predicate ClashAt(run: Run, i: nat)
    requires i < |run.events| && i < |run.states|
  {
    || (run.events[i].UploadFails? && !run.states[i].reboot.NoReboot?)
    || (run.events[i].ExternalReboot? && run.states[i].phase.Rebooting?)
  }

  /** A step brings about a deadlock exactly by a clash, and nothing resolves one. */
  lemma DeadlockStep(flushAt: nat, s: System, ev: Event, s': System)
    requires Step(flushAt, s, ev, s')
    ensures Deadlocked(s') <==>
              || Deadlocked(s)
              || (ev.UploadFails? && !s.reboot.NoReboot?)
              || (ev.ExternalReboot? && s.phase.Rebooting?)
  {
  }

  /** The two threads wait for each other if and only if their reboots have clashed. */
  lemma {:induction false} DeadlockIff(flushAt: nat, run: Run, n: nat)
    requires IsRun(flushAt, run) && n < |run.states|
    ensures Deadlocked(run.states[n]) <==> exists i: nat | i < n :: ClashAt(run, i)
    decreases n
  {
    if n > 0 {
      DeadlockIff(flushAt, run, n - 1);
      assert StepAt(flushAt, run, n - 1);
      DeadlockStep(flushAt, run.states[n - 1], run.events[n - 1], run.states[n]);
      hide Step, Init, Deadlocked;
      if exists i: nat | i < n :: ClashAt(run, i) {
        var i: nat :| i < n && ClashAt(run, i);
        assert i < n - 1 || ClashAt(run, n - 1);
      }
      assert ClashAt(run, n - 1) ==> exists i: nat | i < n :: ClashAt(run, i);
    }
  }

  // ---------------------------------------------------------------- exactly when a reboot gets through

  ghost predicate Continues(run: Run, longer: Run) {
    run.states <= longer.states && run.events <= longer.events
  }

  lemma MoreContinues(run: Run, longer: Run, ev: Event, s: System)
    requires Continues(run, longer)
    ensures Continues(run, Then(longer, ev, s))
  {
    assert longer.states <= Then(longer, ev, s).states && longer.events <= Then(longer, ev, s).events;
  }

  /** The run goes on to a point where the next state takes over. */
  ghost predicate GetsThrough(flushAt: nat, run: Run, longer: Run)
    requires run.states != []
  {
    && IsRun(flushAt, longer) && Continues(run, longer) && |run.events| < |longer.events|
    && longer.events[|longer.events| - 1].Install?
    && forall k | |run.events| <= k < |longer.events| :: Moves(longer.events[k])
  }

  /** Where nothing blocks it, a reboot under way gets through by the steps of the two threads alone. */
  lemma {:induction false} Complete(flushAt: nat, run: Run, soFar: Run) returns (longer: Run)
    requires IsRun(flushAt, run) && IsRun(flushAt, soFar) && Continues(run, soFar)
    requires forall k | |run.events| <= k < |soFar.events| :: Moves(soFar.events[k])
    requires UnderWay(Last(soFar)) && !Deadlocked(Last(soFar))
    ensures GetsThrough(flushAt, run, longer)
    decreases StepsLeft(Last(soFar))
  {
    var s := Last(soFar);
    RunKeeps(flushAt, soFar, |soFar.events|);
    hide Shaped, NothingLost, InOrder, HeldOnlyWithWork, Step, IsRun, UnderWay, Deadlocked, StepsLeft;
    var ev, s' := SomeoneMoves(flushAt, s);
    longer := Then(soFar, ev, s');
    ThenIsRun(flushAt, soFar, ev, s');
    MoreContinues(run, soFar, ev, s');
    assert |run.events| <= |soFar.events|;
    if !ev.Install? {
      RebootAdvances(flushAt, s, ev, s');
      DeadlockStep(flushAt, s, ev, s');
      longer := Complete(flushAt, run, longer);
    }
  }

  /** Nothing that happens after a deadlock is a next state taking over. */
  lemma {:induction false} DeadlockLasts(flushAt: nat, run: Run, i: nat, j: nat)
    requires IsRun(flushAt, run) && i <= j < |run.states| && Deadlocked(run.states[i])
    ensures Deadlocked(run.states[j])
    ensures forall k | i <= k < j :: run.events[k].Enqueue? || run.events[k].Capture?
    decreases j
  {
    if i < j {
      DeadlockLasts(flushAt, run, i, j - 1);
      assert StepAt(flushAt, run, j - 1);
      DeadlockStep(flushAt, run.states[j - 1], run.events[j - 1], run.states[j]);
    }
  }

  /** A reboot under way can still get through if and only if no two reboots have clashed. */
  lemma GetsThroughIff(flushAt: nat, run: Run)
    requires IsRun(flushAt, run) && UnderWay(Last(run))
    ensures (exists longer :: GetsThrough(flushAt, run, longer)) <==>
            !exists i: nat | i < |run.events| :: ClashAt(run, i)
  {
    var n := |run.events|;
    DeadlockIff(flushAt, run, n);
    hide Step, Init, StepAt, UnderWay, Deadlocked, ClashAt;
    if Deadlocked(Last(run)) {
      if exists longer :: GetsThrough(flushAt, run, longer) {
        var longer :| GetsThrough(flushAt, run, longer);
        DeadlockLasts(flushAt, longer, n, |longer.events|);
        assert false;
      }
    } else {
      var longer := Complete(flushAt, run, run);
    }
  }

  /** The steps of a run between two of its states, requests aside. */
  ghost function Turns(events: seq<Event>): nat {
    if events == [] then 0
    else Turns(events[..|events| - 1]) + (if events[|events| - 1].Enqueue? then 0 else 1)
  }

  lemma StepIsShort(flushAt: nat, run: Run, i: nat)
    requires IsRun(flushAt, run) && i < |run.events| && UnderWay(run.states[i]) && !run.events[i].Install?
    ensures UnderWay(run.states[i + 1])
    ensures (if run.events[i].Enqueue? then 0 else 1) + StepsLeft(run.states[i + 1]) <= StepsLeft(run.states[i])
  {
    assert StepAt(flushAt, run, i);
    RunKeeps(flushAt, run, i);
    hide NothingLost, InOrder, HeldOnlyWithWork, Shaped, Step, UnderWay, StepsLeft, Init;
    RebootAdvances(flushAt, run.states[i], run.events[i], run.states[i + 1]);
  }

  /** However the threads take turns, a reboot is through, or stuck, after a bounded number of steps. */
  lemma {:induction false} RebootIsShort(flushAt: nat, run: Run, i: nat, j: nat)
    requires IsRun(flushAt, run) && i <= j < |run.states| && UnderWay(run.states[i])
    requires forall k | i <= k < j :: !run.events[k].Install?
    ensures UnderWay(run.states[j])
    ensures Turns(run.events[i..j]) + StepsLeft(run.states[j]) <= StepsLeft(run.states[i]) <= 7
    decreases j
  {
    if i < j {
      RebootIsShort(flushAt, run, i, j - 1);
      StepIsShort(flushAt, run, j - 1);
      hide IsRun, UnderWay, StepsLeft;
      assert run.events[i..j][..j - i - 1] == run.events[i..j - 1];
    }
  }

  // ---------------------------------------------------------------- both clashes happen

  /** The upload fails while an outside reboot waits for its thread. */
  lemma LateFailureSticks(flushAt: nat, b: Bitstream) returns (run: Run)
    ensures IsRun(flushAt, run)
    ensures run.events == [Enqueue([b]), Pop, Assign, ExternalReboot, Capture, UploadFails]
    ensures Deadlocked(Last(run)) && Last(run).completed == []
  {
    run := CaughtAtWork(flushAt, b);
    var s := Last(run);
    hide IsRun;
    assert HandedOver([], Some(b)) == [b];
    var s' := s.(phase := Rebooting(b, [b]));
    ThenIsRun(flushAt, run, UploadFails, s');
    run := Then(run, UploadFails, s');
  }

  /** An outside reboot takes the lock after the run thread has begun to reboot by itself. */
  lemma OvertakenSticks(flushAt: nat, b: Bitstream) returns (run: Run)
    ensures IsRun(flushAt, run)
    ensures run.events == [Enqueue([b]), Pop, Assign, UploadFails, ExternalReboot]
    ensures Deadlocked(Last(run)) && Last(run).completed == []
  {
    run := AtWork(flushAt, b);
    var s := Last(run);
    hide IsRun;
    assert HandedOver([], Some(b)) == [b];
    var s4 := s.(l := s.l.(shut := true), phase := Rebooting(b, [b]));
    ThenIsRun(flushAt, run, UploadFails, s4);
    run := Then(run, UploadFails, s4);
    var s5 := s4.(reboot := Shut([]), external := 1);
    ThenIsRun(flushAt, run, ExternalReboot, s5);
    run := Then(run, ExternalReboot, s5);
  }
}
