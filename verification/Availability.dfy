/** Waiting for boards to become available (src/icefarm/client/lib/utils.py). */
module AvailabilityModel {

  /** `last_available` after `heard`, the latest announcement last. */
  function AfterHearing(last: int, heard: seq<int>): int {
    if heard == [] then last else heard[|heard| - 1]
  }

  function Joined(groups: seq<seq<int>>): seq<int> {
    if groups == [] then [] else Joined(groups[..|groups| - 1]) + groups[|groups| - 1]
  }

  class AvailabilityWaiter {
    var lastAvailable: int

    constructor ()
      ensures lastAvailable == 0
    {
      lastAvailable := 0;
    }

    /** The handler of an announcement. */
    method Available(amount: int)
      modifies this
      ensures lastAvailable == amount
    {
      lastAvailable := amount;
    }

    /** `available` is the answer of the first look, `arriving[i]` what is announced before check
        `i + 1` of the condition: a check may come after several announcements, and the last one
        comes after all of them. It ends without having returned when nothing more is announced. */
    method WaitForAmountAvailable(amount: int, available: int, arriving: seq<seq<int>>) returns (returned: bool)
      modifies this
      ensures amount <= available ==> returned && lastAvailable == old(lastAvailable)
      ensures available < amount ==>
                (returned <==> exists k | 0 <= k <= |arriving| ::
                    amount <= AfterHearing(old(lastAvailable), Joined(arriving[..k])))
    {
      if amount <= available {
        return true;
      }
      ghost var last := lastAvailable;
      var i := 0;
      while lastAvailable < amount && i < |arriving|
        invariant 0 <= i <= |arriving| && lastAvailable == AfterHearing(last, Joined(arriving[..i]))
        invariant forall k | 0 <= k < i :: AfterHearing(last, Joined(arriving[..k])) < amount
        decreases |arriving| - i
      {
        assert arriving[..i + 1][..i] == arriving[..i];
        Hear(arriving[i]);
        i := i + 1;
      }
      returned := amount <= lastAvailable;
      assert returned ==> amount <= AfterHearing(last, Joined(arriving[..i]));
    }

    method Hear(heard: seq<int>)
      modifies this
      ensures lastAvailable == AfterHearing(old(lastAvailable), heard)
    {
      for i := 0 to |heard|
        invariant lastAvailable == AfterHearing(old(lastAvailable), heard[..i])
      {
        Available(heard[i]);
      }
      assert heard[..|heard|] == heard;
    }
  }
}

/** Whether a waiter wakes up, over every run of the reservation database. */
module AvailabilityRuns {
  import opened AvailabilityModel
  import opened ReservationModel
  import opened ReservationRuns

  /** The numbers announced in a log, in order. */
  ghost function Amounts(log: seq<Notice>): seq<int> {
    if log == [] then []
    else
      var n := |log| - 1;
      Amounts(log[..n]) + (match log[n]
                           case DevicesAvailable(amount) => [amount]
                           case ReservationEnd(_, _) => [])
  }

  lemma {:induction false} AmountsConcat(x: seq<Notice>, y: seq<Notice>)
    ensures Amounts(x + y) == Amounts(x) + Amounts(y)
  {
    if y == [] {
      assert x + y == x;
    } else {
      assert (x + y)[..|x + y| - 1] == x + y[..|y| - 1];
      AmountsConcat(x, y[..|y| - 1]);
    }
  }

  lemma {:induction false} EndsAnnounceNothing(notices: seq<Notice>)
    requires forall n | n in notices :: n.ReservationEnd?
    ensures Amounts(notices) == []
  {
    if notices != [] {
      assert notices[|notices| - 1] in notices;
      EndsAnnounceNothing(notices[..|notices| - 1]);
    }
  }

  lemma AnnouncesEnds(notices: seq<Notice>, rows: set<Serial>, reservations: map<Serial, Row>)
    requires Announces(notices, rows, reservations)
    ensures Amounts(notices) == []
  {
    forall n | n in notices ensures n.ReservationEnd? {
      assert n in multiset(notices);
    }
    EndsAnnounceNothing(notices);
  }

  /** What a call adds to the log. */
  lemma CallLogs(db: Db, call: Call, o: Outcome, db': Db)
    requires Executes(db, call, o, db')
    ensures db'.log == db.log || db'.log == db.log + o.notices
    ensures call.UpdateStatus? ==> db'.log == db.log || db'.log == db.log + [DevicesAvailable(AmountAvailable(db'))]
    ensures !call.UpdateStatus? ==> db'.log == db.log || Announces(o.notices, o.rows, db.reservations)
  {
    hide Announces;
  }

  /** A call announces at most one number, and that is how many devices are then available. */
  lemma CallAnnounces(db: Db, call: Call, o: Outcome, db': Db)
    requires Executes(db, call, o, db')
    ensures db'.log == db.log + db'.log[|db.log|..] && |db.log| <= |db'.log|
    ensures var heard := Amounts(db'.log[|db.log|..]);
            heard == [] || heard == [AmountAvailable(db')]
    ensures Amounts(db'.log[|db.log|..]) == [] ==> AmountAvailable(db') <= AmountAvailable(db)
  {
    GrowthIsAnnounced(db, call, o, db');
    CallLogs(db, call, o, db');
    hide Executes, Announces, AmountAvailable;
    var more, number := db'.log[|db.log|..], DevicesAvailable(AmountAvailable(db'));
    assert more == [] || more == o.notices || more == [number];
    assert [number][..0] == [];
    if db'.log != db.log && !call.UpdateStatus? {
      AnnouncesEnds(o.notices, o.rows, db.reservations);
      assert more == o.notices;
    }
  }

  ghost predicate Covered(db: Db) {
    AmountAvailable(db) <= AfterHearing(0, Amounts(db.log))
  }

  lemma CallKeepsCovered(run: Run, i: nat)
    requires IsRun(run) && i < |run.calls| && Covered(run.states[i])
    ensures Covered(run.states[i + 1])
  {
    hide Executes, AmountAvailable;
    assert StepAt(run, i);
    var db, db' := run.states[i], run.states[i + 1];
    CallAnnounces(db, run.calls[i], run.outcomes[i], db');
    AmountsConcat(db.log, db'.log[|db.log|..]);
  }

  /** The last number announced is never below the number available, however the two change. */
  lemma {:induction false} LastAnnouncedCovers(run: Run, i: nat)
    requires IsRun(run) && i < |run.states|
    ensures Covered(run.states[i])
    decreases i
  {
    if i > 0 {
      hide Covered, StepAt;
      LastAnnouncedCovers(run, i - 1);
      CallKeepsCovered(run, i - 1);
    }
  }

  lemma {:induction false} AnnouncedOnce(log: seq<Notice>, from: nat, k: nat)
    requires from <= k < |log| && log[k].DevicesAvailable?
    ensures Amounts(log[from..]) != []
  {
    assert log[from..] == log[from..k] + [log[k]] + log[k + 1..];
    AmountsConcat(log[from..k] + [log[k]], log[k + 1..]);
    AmountsConcat(log[from..k], [log[k]]);
    assert [log[k]][..0] == [];
  }

  /** A waiter that saw too few is released. It hears everything from position `from` of the log on
      and looks before call `i`. If later, before call `j`, enough boards are available, then once it
      has heard all announcements up to there its condition holds, although each announcement
      overwrites the one before. */
  lemma WaiterReleased(run: Run, from: nat, i: nat, j: nat, n: nat, last: int)
    requires IsRun(run) && i <= j < |run.states| && from <= |run.states[i].log|
    requires AmountAvailable(run.states[i]) < n <= AmountAvailable(run.states[j])
    ensures |run.states[i].log| <= |run.states[j].log|
    ensures n <= AfterHearing(last, Amounts(run.states[j].log[from..]))
  {
    hide AmountAvailable;
    var k := NoLostWakeUp(run, i, j, n);
    var log := run.states[j].log;
    AnnouncedOnce(log, from, k);
    LastAnnouncedCovers(run, j);
    assert log == log[..from] + log[from..];
    AmountsConcat(log[..from], log[from..]);
    hide Amounts, IsRun, AfterHearing;
    LatestCounts(Amounts(log[..from]), Amounts(log[from..]), last);
  }

  lemma LatestCounts(early: seq<int>, late: seq<int>, last: int)
    requires late != []
    ensures AfterHearing(0, early + late) == AfterHearing(last, late)
  {
  }

  // ---------------------------------------------------------------- when a release is truthful

  lemma CallAdds(run: Run, i: nat, from: nat, a: int)
    requires IsRun(run) && i < |run.calls| && from <= |run.states[i].log|
    ensures |run.states[i].log| <= |run.states[i + 1].log|
    ensures a in Amounts(run.states[i + 1].log[from..]) ==>
              a in Amounts(run.states[i].log[from..]) || a == AmountAvailable(run.states[i + 1])
  {
    assert StepAt(run, i);
    hide Executes, AmountAvailable, IsRun;
    var before, after := run.states[i].log, run.states[i + 1].log;
    CallAnnounces(run.states[i], run.calls[i], run.outcomes[i], run.states[i + 1]);
    assert after[from..] == before[from..] + after[|before|..];
    AmountsConcat(before[from..], after[|before|..]);
  }

  /** A number that a run adds to the log was the number available at some later state. */
  lemma {:induction false} LaterAnnounced(run: Run, i: nat, j: nat, a: int)
    requires IsRun(run) && i <= j < |run.states|
    ensures run.states[i].log <= run.states[j].log
    ensures a in Amounts(run.states[j].log[|run.states[i].log|..]) ==>
              exists k | i < k <= j :: a == AmountAvailable(run.states[k])
    decreases j
  {
    var log := run.states[i].log;
    if i == j {
      assert log[|log|..] == [];
    } else {
      LogGrows(run, i, j);
      LaterAnnounced(run, i, j - 1, a);
      CallAdds(run, j - 1, |log|, a);
      hide AmountAvailable, IsRun, Amounts;
    }
  }

  /** After hearing the log from position `from` up to position `m`, the last number is at least `n`. */
  ghost predicate Heard(log: seq<Notice>, from: nat, m: nat, n: int, last: int) {
    from <= m <= |log| && n <= AfterHearing(last, Amounts(log[from..m]))
  }

  /** At some time from the first look, before call `i`, up to now, before call `j`, there were enough. */
  ghost predicate EnoughSince(run: Run, i: nat, j: nat, n: int)
    requires j < |run.states|
  {
    exists k | i <= k <= j :: n <= AmountAvailable(run.states[k])
  }

  /** A wait that looked before call `i` returns only after `n` boards were available at some time since,
      whatever happens and however much of it the client has heard. */
  ghost predicate Truthful(run: Run, i: nat, from: nat, n: int, last: int) {
    forall j: nat, m: nat | i <= j < |run.states| && Heard(run.states[j].log, from, m, n, last) ::
      EnoughSince(run, i, j, n)
  }

  ghost predicate AllBelow(numbers: seq<int>, n: int) {
    forall a | a in numbers :: a < n
  }

  /** Every number in a log is the last one at some position. */
  lemma {:induction false} WhenAnnounced(log: seq<Notice>, a: int) returns (m: nat)
    requires a in Amounts(log)
    ensures m <= |log| && Amounts(log[..m]) != [] && AfterHearing(0, Amounts(log[..m])) == a
  {
    var n := |log| - 1;
    if a in Amounts(log[..n]) {
      m := WhenAnnounced(log[..n], a);
      assert log[..n][..m] == log[..m];
    } else {
      m := |log|;
      assert log[..m] == log;
    }
  }

  /** The last number heard is the one from before, one that was still under way at the first look, or one
      announced since. */
  lemma WhatIsHeard(log: seq<Notice>, longer: seq<Notice>, from: nat, m: nat, last: int)
    requires log <= longer && from <= |log| && from <= m <= |longer|
    ensures var heard := AfterHearing(last, Amounts(longer[from..m]));
            heard == last || heard in Amounts(log[from..]) || heard in Amounts(longer[|log|..])
  {
    var heard := Amounts(longer[from..m]);
    assert longer[from..] == longer[from..m] + longer[m..];
    AmountsConcat(longer[from..m], longer[m..]);
    assert longer[from..] == log[from..] + longer[|log|..];
    AmountsConcat(log[from..], longer[|log|..]);
    hide *;
    LastIsSomewhere(heard, Amounts(longer[m..]), Amounts(log[from..]), Amounts(longer[|log|..]), last);
  }

  lemma LastIsSomewhere(heard: seq<int>, rest: seq<int>, early: seq<int>, late: seq<int>, last: int)
    requires heard + rest == early + late
    ensures var a := AfterHearing(last, heard); a == last || a in early || a in late
  {
    if heard != [] {
      assert (early + late)[|heard| - 1] == (heard + rest)[|heard| - 1];
    }
  }

  lemma TruthfulIf(run: Run, i: nat, from: nat, n: int, last: int, j: nat, m: nat)
    requires IsRun(run) && i <= j < |run.states| && from <= |run.states[i].log|
    requires last < n && AllBelow(Amounts(run.states[i].log[from..]), n)
    requires Heard(run.states[j].log, from, m, n, last)
    ensures EnoughSince(run, i, j, n)
  {
    var a := AfterHearing(last, Amounts(run.states[j].log[from..m]));
    LaterAnnounced(run, i, j, a);
    WhatIsHeard(run.states[i].log, run.states[j].log, from, m, last);
    hide IsRun, AmountAvailable, Amounts, AfterHearing;
    assert a in Amounts(run.states[j].log[|run.states[i].log|..]);
    var k :| i < k <= j && a == AmountAvailable(run.states[k]);
  }

  lemma UntruthfulIf(run: Run, i: nat, from: nat, n: int, last: int) returns (m: nat)
    requires i < |run.states| && from <= |run.states[i].log| && AmountAvailable(run.states[i]) < n
    requires !(last < n && AllBelow(Amounts(run.states[i].log[from..]), n))
    ensures Heard(run.states[i].log, from, m, n, last) && !EnoughSince(run, i, i, n)
  {
    hide AmountAvailable;
    var log := run.states[i].log;
    if n <= last {
      m := from;
      assert log[from..from] == [];
    } else {
      var a :| a in Amounts(log[from..]) && n <= a;
      m := WhenAnnounced(log[from..], a);
      assert log[from..][..m] == log[from..from + m];
      m := from + m;
    }
  }

  /** Exactly when the documentation is right: a first look that sees fewer than `n` boards is followed by a
      release only after `n` of them were available at some time since, if and only if neither the last
      number heard before nor any number still under way is `n` or more. */
  lemma TruthfulIff(run: Run, i: nat, from: nat, n: int, last: int)
    requires IsRun(run) && i < |run.states| && from <= |run.states[i].log| && AmountAvailable(run.states[i]) < n
    ensures Truthful(run, i, from, n, last) <==>
            last < n && AllBelow(Amounts(run.states[i].log[from..]), n)
  {
    hide IsRun, AmountAvailable, Heard, EnoughSince;
    if last < n && AllBelow(Amounts(run.states[i].log[from..]), n) {
      forall j: nat, m: nat | i <= j < |run.states| && Heard(run.states[j].log, from, m, n, last)
        ensures EnoughSince(run, i, j, n)
      {
        TruthfulIf(run, i, from, n, last, j, m);
      }
    } else {
      var m := UntruthfulIf(run, i, from, n, last);
    }
  }

  /** For a client that has heard everything, that is a test it can make itself. */
  lemma UpToDateTruthfulIff(run: Run, i: nat, n: int, last: int)
    requires IsRun(run) && i < |run.states| && AmountAvailable(run.states[i]) < n
    ensures Truthful(run, i, |run.states[i].log|, n, last) <==> last < n
  {
    var log := run.states[i].log;
    TruthfulIff(run, i, |log|, n, last);
    assert log[|log|..] == [];
  }

  // ---------------------------------------------------------------- a release that comes too soon

  ghost function OneBoard(w: WorkerId, d: Serial, kind: Kind, status: Status, log: seq<Notice>): Db {
    Db(map[w := Worker(0, {kind}, false)], map[d := Device(w, status)], map[], log, multiset{})
  }

  lemma WorkerRegisters(w: WorkerId, kind: Kind)
    ensures Executes(Db(map[], map[], map[], [], multiset{}), AddWorker(w, {kind}, 0), Outcome(true, {}, []),
                     Db(map[w := Worker(0, {kind}, false)], map[], map[], [], multiset{}))
  {
    assert EndNotices({}, map[]) == {};
  }

  lemma BoardAdded(w: WorkerId, d: Serial, kind: Kind)
    ensures Executes(Db(map[w := Worker(0, {kind}, false)], map[], map[], [], multiset{}), AddDevice(d, w),
                     Outcome(true, {}, []), OneBoard(w, d, kind, AwaitFlashDefault, []))
  {
  }

  lemma BoardReports(w: WorkerId, d: Serial, kind: Kind)
    ensures Executes(OneBoard(w, d, kind, AwaitFlashDefault, []), UpdateStatus(d, Available),
                     Outcome(true, {}, [DevicesAvailable(1)]), OneBoard(w, d, kind, Available, [DevicesAvailable(1)]))
  {
    var db' := OneBoard(w, d, kind, Available, [DevicesAvailable(1)]);
    var db := OneBoard(w, d, kind, AwaitFlashDefault, []);
    assert AvailableDevices(db'.devices) == {d};
    assert db'.devices == db.devices[d := db.devices[d].(status := Available)];
    assert [] + [DevicesAvailable(1)] == [DevicesAvailable(1)];
  }

  /** A board whose worker has reported it available. */
  lemma BoardReported(w: WorkerId, d: Serial, kind: Kind) returns (run: Run)
    ensures IsRun(run) && run.calls == [AddWorker(w, {kind}, 0), AddDevice(d, w), UpdateStatus(d, Available)]
    ensures Last(run) == OneBoard(w, d, kind, Available, [DevicesAvailable(1)])
  {
    var db0 := Db(map[], map[], map[], [], multiset{});
    run := Run([db0], [], []);
    assert IsRun(run);
    var db1 := Db(map[w := Worker(0, {kind}, false)], map[], map[], [], multiset{});
    WorkerRegisters(w, kind);
    BoardAdded(w, d, kind);
    hide Executes, IsRun;
    ThenIsRun(run, AddWorker(w, {kind}, 0), Outcome(true, {}, []), db1);
    run := Then(run, AddWorker(w, {kind}, 0), Outcome(true, {}, []), db1);
    var db2 := OneBoard(w, d, kind, AwaitFlashDefault, []);
    ThenIsRun(run, AddDevice(d, w), Outcome(true, {}, []), db2);
    run := Then(run, AddDevice(d, w), Outcome(true, {}, []), db2);
    var db3 := OneBoard(w, d, kind, Available, [DevicesAvailable(1)]);
    BoardReports(w, d, kind);
    ThenIsRun(run, UpdateStatus(d, Available), Outcome(true, {}, [DevicesAvailable(1)]), db3);
    run := Then(run, UpdateStatus(d, Available), Outcome(true, {}, [DevicesAvailable(1)]), db3);
  }

  lemma BoardReserved(w: WorkerId, d: Serial, c: Client, kind: Kind)
    ensures var db := OneBoard(w, d, kind, Available, [DevicesAvailable(1)]);
            && Executes(db, MakeAny(1, c, kind, 0), Outcome(true, {d}, []), Booked(db, {d}, c, 0))
            && AmountAvailable(Booked(db, {d}, c, 0)) == 0 && Booked(db, {d}, c, 0).log == db.log
  {
    var db := OneBoard(w, d, kind, Available, [DevicesAvailable(1)]);
    assert Eligible(db, kind) == {d};
    assert AvailableDevices(Booked(db, {d}, c, 0).devices) == {};
  }

  /** So a wait may return although nothing is available, nor was at any time since the call: a
      waiter that heard of a board before it was reserved still trusts that announcement. */
  lemma StaleRelease(w: WorkerId, d: Serial, c: Client, kind: Kind) returns (run: Run)
    ensures IsRun(run)
    ensures run.calls == [AddWorker(w, {kind}, 0), AddDevice(d, w), UpdateStatus(d, Available), MakeAny(1, c, kind, 0)]
    ensures AmountAvailable(Last(run)) < 1 <= AfterHearing(0, Amounts(Last(run).log))
  {
    run := BoardReported(w, d, kind);
    var db := Last(run);
    BoardReserved(w, d, c, kind);
    hide Executes, Booked, AmountAvailable, IsRun, OneBoard;
    assert db.log == [DevicesAvailable(1)] && [DevicesAvailable(1)][..0] == [];
    ThenIsRun(run, MakeAny(1, c, kind, 0), Outcome(true, {d}, []), Booked(db, {d}, c, 0));
    run := Then(run, MakeAny(1, c, kind, 0), Outcome(true, {d}, []), Booked(db, {d}, c, 0));
  }
}
