/** What each procedure of the reservation database does to every single row, device and worker, in the words
    of the tables, and what follows for whole runs. */
module ReservationMeans {
  import opened Sequences
  import opened ReservationModel
  import opened ReservationRuns
  import opened ReservationLease

  // ---------------------------------------------------------------- who may be booked

  /** The device is available, and its worker is registered, offers `kind` and is not shutting down. */
  ghost predicate MayBook(db: Db, d: Serial, kind: Kind) {
    && d in db.devices
    && var device := db.devices[d];
       && device.status == Available && device.worker in db.workers
       && var worker := db.workers[device.worker];
          kind in worker.reservables && !worker.shuttingDown
  }

  lemma EligibleMeans(db: Db, d: Serial, kind: Kind)
    ensures d in Eligible(db, kind) <==> MayBook(db, d, kind)
  {
  }

  /** A specific request succeeds if and only if its serials are distinct and may all be booked. */
  lemma SpecificBooksIff(db: Db, client: Client, serials: seq<Serial>, kind: Kind, now: int, o: Outcome, db': Db)
    requires Inv(db) && Executes(db, MakeSpecific(client, serials, kind, now), o, db')
    ensures o.ok <==>
            && (forall i, j | 0 <= i < j < |serials| :: serials[i] != serials[j])
            && (forall d | d in serials :: MayBook(db, d, kind))
    ensures o.ok ==> forall d :: d in o.rows <==> d in serials
  {
    MakeSpecificIff(db, client, serials, kind, now, o, db');
    PickedSpecific(db, client, serials, kind, now, o, db');
    forall d | d in serials ensures d in Eligible(db, kind) <==> MayBook(db, d, kind) {
      EligibleMeans(db, d, kind);
    }
    hide Executes, Inv, MayBook, Eligible, NewlyHeld, Booked;
    assert o.ok ==> o.rows == Members(serials);
  }

  /** Any `amount` devices: granted if and only if there are that many that may be booked, and all of those
      granted may be. */
  lemma AnyBooksIff(db: Db, amount: int, client: Client, kind: Kind, now: int, o: Outcome, db': Db)
    requires Inv(db) && Executes(db, MakeAny(amount, client, kind, now), o, db')
    ensures o.ok <==> exists rows: set<Serial> :: |rows| == amount && forall d | d in rows :: MayBook(db, d, kind)
    ensures o.ok ==> |o.rows| == amount && forall d | d in o.rows :: MayBook(db, d, kind)
  {
    MakeAnyIff(db, amount, client, kind, now, o, db');
    forall d ensures d in Eligible(db, kind) <==> MayBook(db, d, kind) {
      EligibleMeans(db, d, kind);
    }
    hide Executes, Inv, MayBook, Eligible, NewlyHeld;
    if rows: set<Serial> :| |rows| == amount && forall d | d in rows :: MayBook(db, d, kind) {
      SameSizeSubset(rows, Eligible(db, kind));
    }
  }

  // ---------------------------------------------------------------- workers that shut down

  /** `w` is gone or shutting down. */
  ghost predicate OutOfService(db: Db, w: WorkerId) {
    w in db.workers ==> db.workers[w].shuttingDown
  }

  lemma StaysOut(db: Db, call: Call, o: Outcome, db': Db, w: WorkerId)
    requires Executes(db, call, o, db') && OutOfService(db, w) && !(call.AddWorker? && call.id == w)
    ensures OutOfService(db', w)
  {
    hide Announces, Booked, Released, Extended, Eligible;
    if call.MakeAny? || call.MakeSpecific? || call.Extend? || call.ExtendAll? || call.End? || call.EndAll?
       || call.ReservationTimeouts? {
      WorkersUntouched(db, call, o, db');
    }
  }

  lemma WorkersUntouched(db: Db, call: Call, o: Outcome, db': Db)
    requires call.MakeAny? || call.MakeSpecific? || call.Extend? || call.ExtendAll? || call.End? || call.EndAll?
          || call.ReservationTimeouts?
    requires Executes(db, call, o, db')
    ensures db'.workers == db.workers
  {
    hide Announces, Eligible, RowsOf, NamedRowsOf, Restatus;
  }

  lemma {:induction false} OutUntilAdded(run: Run, w: WorkerId, i: nat, j: nat)
    requires IsRun(run) && i < j < |run.states| && run.calls[i] == ShutdownWorker(w)
    requires forall k | i < k < j :: !(run.calls[k].AddWorker? && run.calls[k].id == w)
    ensures OutOfService(run.states[j], w)
    decreases j
  {
    hide OutOfService, Executes;
    if j == i + 1 {
      assert StepAt(run, i);
      ShutsDown(run.states[i], w, run.outcomes[i], run.states[j]);
    } else {
      OutUntilAdded(run, w, i, j - 1);
      assert StepAt(run, j - 1);
      StaysOut(run.states[j - 1], run.calls[j - 1], run.outcomes[j - 1], run.states[j], w);
    }
  }

  lemma ShutsDown(db: Db, w: WorkerId, o: Outcome, db': Db)
    requires Executes(db, ShutdownWorker(w), o, db')
    ensures OutOfService(db', w)
  {
  }

  lemma BookedMayBeBooked(run: Run, i: nat, d: Serial)
    requires IsRun(run) && i < |run.calls| && Books(run, i, d)
    ensures MayBook(run.states[i], d, run.calls[i].kind)
  {
    assert StepAt(run, i);
    EligibleMeans(run.states[i], d, run.calls[i].kind);
    hide MayBook, IsRun, Booked;
  }

  /** From its shutdown until it is added again, no call books a device of a worker. */
  lemma NoBookingAfterShutdown(run: Run, w: WorkerId, i: nat, j: nat, d: Serial)
    requires IsRun(run) && i < j < |run.calls| && run.calls[i] == ShutdownWorker(w)
    requires forall k | i < k < j :: !(run.calls[k].AddWorker? && run.calls[k].id == w)
    requires d in run.states[j].devices && run.states[j].devices[d].worker == w
    ensures !Books(run, j, d)
  {
    OutUntilAdded(run, w, i, j);
    hide IsRun, Books;
    if Books(run, j, d) {
      BookedMayBeBooked(run, j, d);
    }
  }

  // ---------------------------------------------------------------- which rows go

  ghost predicate Removes(call: Call) {
    || call.AddWorker? || call.WorkerTimeouts? || call.End? || call.EndAll? || call.ReservationTimeouts?
    || call.ClearReservations? || call.ClearDevices? || call.DeleteAllWorkers?
  }

  lemma RemovalLogs(db: Db, call: Call, o: Outcome, db': Db)
    requires Executes(db, call, o, db') && Removes(call)
    ensures db'.reservations == db.reservations - o.rows && db'.log == db.log + o.notices
    ensures Announces(o.notices, o.rows, db.reservations)
  {
    hide Announces, Restatus, DevicesOf, RowsOf, NamedRowsOf;
  }

  /** The device belongs to a worker in `gone`. */
  ghost predicate On(db: Db, d: Serial, w: WorkerId) {
    d in db.devices && db.devices[d].worker == w
  }

  ghost predicate Silent(db: Db, w: WorkerId, seconds: int, now: int) {
    w in db.workers && db.workers[w].heartbeat < now - seconds
  }

  /** A call takes the row of `d` away. */
  ghost predicate TakesRow(db: Db, call: Call, d: Serial)
    requires d in db.reservations
  {
    var row := db.reservations[d];
    match call
    case End(client, serials) => row.client == client && d in serials
    case EndAll(client) => row.client == client
    case ReservationTimeouts(now) => row.until < now
    case ClearReservations => true
    case _ => TakesDevice(db, call, d)
  }

  /** A call takes the device `d` away, with its row. */
  ghost predicate TakesDevice(db: Db, call: Call, d: Serial) {
    match call
    case AddWorker(id, _, _) => On(db, d, id)
    case WorkerTimeouts(seconds, now) => d in db.devices && Silent(db, db.devices[d].worker, seconds, now)
    case ClearDevices => d in db.devices
    case DeleteAllWorkers => d in db.devices && db.devices[d].worker in db.workers
    case _ => false
  }

  /** A row goes exactly by the calls that are to take it, and by no other. */
  lemma RowGoesIff(db: Db, call: Call, o: Outcome, db': Db, d: Serial)
    requires Executes(db, call, o, db') && d in db.reservations
    ensures d !in db'.reservations <==> TakesRow(db, call, d)
  {
    hide Announces, Restatus, Eligible;
  }

  lemma DeviceGoesIff(db: Db, call: Call, o: Outcome, db': Db, d: Serial)
    requires Executes(db, call, o, db') && d in db.devices
    ensures d !in db'.devices <==> TakesDevice(db, call, d)
  {
    hide Announces, Eligible, RowsOf, NamedRowsOf;
  }

  /** A device that stays has its status changed only by a report, by being booked, or, back to being
      flashed, by a row that a client or the expiry takes away. */
  lemma StatusAfter(db: Db, call: Call, o: Outcome, db': Db, d: Serial)
    requires Executes(db, call, o, db') && d in db.devices && d in db'.devices
    ensures db'.devices[d].worker == db.devices[d].worker
    ensures db'.devices[d].status ==
            (if call.UpdateStatus? && call.device == d then call.status
             else if (call.MakeAny? || call.MakeSpecific?) && o.ok && d in o.rows then Reserved
             else if (call.End? || call.EndAll? || call.ReservationTimeouts?)
                     && d in db.reservations && TakesRow(db, call, d) then AwaitFlashDefault
             else db.devices[d].status)
  {
    hide Announces, Eligible;
  }

  /** A row that stays is the same, unless its client extends it. */
  lemma RowStays(db: Db, call: Call, o: Outcome, db': Db, d: Serial)
    requires Executes(db, call, o, db') && d in db.reservations && d in db'.reservations
    ensures db'.reservations[d] ==
            (if Extends(call, db.reservations[d].client, d) then Row(db.reservations[d].client, call.now + 3600)
             else db.reservations[d])
  {
    hide Announces, Restatus, Eligible;
  }

  /** A row comes only by being booked, for an hour. */
  lemma RowComes(db: Db, call: Call, o: Outcome, db': Db, d: Serial)
    requires Executes(db, call, o, db') && d !in db.reservations && d in db'.reservations
    ensures (call.MakeAny? || call.MakeSpecific?) && o.ok && d in o.rows
    ensures db'.reservations[d] == Row(call.client, call.now + 3600)
  {
    if Removes(call) {
      RemovalLogs(db, call, o, db');
      hide Executes;
    } else if call.MakeAny? || call.MakeSpecific? {
      hide Announces, Restatus, Eligible;
    } else {
      RowsKept(db, call, o, db');
      hide Executes;
    }
  }

  lemma RowsKept(db: Db, call: Call, o: Outcome, db': Db)
    requires Executes(db, call, o, db') && !Removes(call) && !call.MakeAny? && !call.MakeSpecific?
    ensures db'.reservations.Keys == db.reservations.Keys
  {
    hide Announces, Eligible, RowsOf, NamedRowsOf;
  }

  /** A device comes only by being added, by a known worker, waiting to be flashed. */
  lemma DeviceComes(db: Db, call: Call, o: Outcome, db': Db, d: Serial)
    requires Executes(db, call, o, db') && d !in db.devices && d in db'.devices
    ensures call.AddDevice? && call.device == d && o.ok && call.id in db.workers
    ensures db'.devices[d] == Device(call.id, AwaitFlashDefault)
  {
    hide Announces, Eligible, RowsOf, NamedRowsOf;
  }

  /** Adding succeeds for every new device of a known worker, reporting for every known device. */
  lemma AddsIff(db: Db, call: Call, o: Outcome, db': Db)
    requires Executes(db, call, o, db')
    ensures call.AddDevice? ==> (o.ok <==> call.id in db.workers && call.device !in db.devices)
    ensures call.AddDevice? && o.ok ==> call.device in db'.devices
    ensures call.UpdateStatus? ==> (o.ok <==> call.device in db.devices)
    ensures call.HeartbeatWorker? ==> (o.ok <==> call.id in db.workers)
  {
    hide Announces;
  }

  // ---------------------------------------------------------------- what is announced

  lemma OthersLog(db: Db, call: Call, o: Outcome, db': Db)
    requires Executes(db, call, o, db') && !Removes(call)
    ensures db.reservations.Keys <= db'.reservations.Keys
    ensures db'.log == db.log || exists n: nat :: db'.log == db.log + [DevicesAvailable(n)]
  {
    hide Announces, Restatus, Eligible, RowsOf, NamedRowsOf;
    assert db.log + [] == db.log;
  }

  lemma CountEnds(notices: seq<Notice>, rows: set<Serial>, reservations: map<Serial, Row>, d: Serial, c: Client)
    requires Announces(notices, rows, reservations)
    ensures multiset(notices)[ReservationEnd(d, c)] ==
            if d in rows && d in reservations && reservations[d].client == c then 1 else 0
  {
    assert multiset(EndNotices(rows, reservations))[ReservationEnd(d, c)] ==
           if d in rows && d in reservations && reservations[d].client == c then 1 else 0;
  }

  /** Whatever removes a row, its end is announced just once, with its own client, and no other end is. */
  lemma EndsAnnounced(db: Db, call: Call, o: Outcome, db': Db, d: Serial, c: Client)
    requires Executes(db, call, o, db')
    ensures db.log <= db'.log
    ensures multiset(db'.log[|db.log|..])[ReservationEnd(d, c)] ==
            if d in db.reservations && d !in db'.reservations && db.reservations[d].client == c then 1 else 0
  {
    var more := db'.log[|db.log|..];
    if Removes(call) {
      RemovalLogs(db, call, o, db');
      CountEnds(o.notices, o.rows, db.reservations, d, c);
      hide *;
      assert more == o.notices;
    } else {
      OthersLog(db, call, o, db');
      hide *;
      if n: nat :| db'.log == db.log + [DevicesAvailable(n)] {
        assert more == [DevicesAvailable(n)];
      } else {
        assert more == [];
      }
    }
  }

  /** The number of available devices is announced by exactly those calls that make a device available. */
  lemma AvailableAnnouncedIff(db: Db, call: Call, o: Outcome, db': Db)
    requires Executes(db, call, o, db')
    ensures db.log <= db'.log
    ensures (exists n: nat :: DevicesAvailable(n) in db'.log[|db.log|..]) <==>
            exists d :: !IsAvailable(db, d) && IsAvailable(db', d)
    ensures (exists d :: !IsAvailable(db, d) && IsAvailable(db', d)) ==>
              db'.log == db.log + [DevicesAvailable(AmountAvailable(db'))]
  {
    GrowthIsAnnounced(db, call, o, db');
    if call.UpdateStatus? {
      ReportAnnounces(db, call.device, call.status, o, db');
    } else {
      forall d ensures !(!IsAvailable(db, d) && IsAvailable(db', d)) {
        if !IsAvailable(db, d) && IsAvailable(db', d) {
          OnlyReportsFree(db, call, o, db', d);
        }
      }
      NoNumberAnnounced(db, call, o, db');
    }
  }

  lemma ReportAnnounces(db: Db, x: Serial, status: Status, o: Outcome, db': Db)
    requires Executes(db, UpdateStatus(x, status), o, db')
    ensures db'.log == if !IsAvailable(db, x) && IsAvailable(db', x)
                       then db.log + [DevicesAvailable(AmountAvailable(db'))] else db.log
    ensures forall d | d != x :: IsAvailable(db', d) <==> IsAvailable(db, d)
  {
    assert db.log + [] == db.log;
  }

  lemma NoNumberAnnounced(db: Db, call: Call, o: Outcome, db': Db)
    requires Executes(db, call, o, db') && !call.UpdateStatus?
    ensures db.log <= db'.log && forall n: nat :: DevicesAvailable(n) !in db'.log[|db.log|..]
  {
    if Removes(call) {
      RemovalLogs(db, call, o, db');
      hide Executes;
      forall n: nat ensures DevicesAvailable(n) !in o.notices {
        assert DevicesAvailable(n) !in multiset(EndNotices(o.rows, db.reservations));
      }
      assert db'.log[|db.log|..] == o.notices;
    } else {
      hide Announces, Eligible, RowsOf, NamedRowsOf;
      assert db'.log == db.log;
    }
  }

  /** `gone` are all the rows that go; each is announced once, and its device waits to be flashed. */
  ghost predicate Gives(db: Db, db': Db, gone: set<Serial>) {
    && db'.reservations.Keys == db.reservations.Keys - gone
    && (forall d | d in db'.reservations :: db'.reservations[d] == db.reservations[d])
    && db'.devices.Keys == db.devices.Keys
    && (forall d | d in db.devices :: db'.devices[d] ==
          if d in gone then Device(db.devices[d].worker, AwaitFlashDefault) else db.devices[d])
    && db'.workers == db.workers && db.log <= db'.log
    && forall d, c :: multiset(db'.log[|db.log|..])[ReservationEnd(d, c)] ==
                      if d in gone && d in db.reservations && db.reservations[d].client == c then 1 else 0
  }

  lemma GivesBack(db: Db, call: Call, o: Outcome, db': Db, gone: set<Serial>)
    requires (call.End? || call.EndAll? || call.ReservationTimeouts?) && Executes(db, call, o, db')
    requires forall d :: d in gone <==> d in db.reservations && TakesRow(db, call, d)
    ensures Gives(db, db', gone)
  {
    forall d | d in db.reservations
      ensures d in db'.reservations <==> d !in gone
      ensures d in db'.reservations ==> db'.reservations[d] == db.reservations[d]
    {
      RowGoesIff(db, call, o, db', d);
      if d in db'.reservations {
        RowStays(db, call, o, db', d);
      }
    }
    forall d | d in db.devices
      ensures d in db'.devices
      ensures db'.devices[d] == if d in gone then Device(db.devices[d].worker, AwaitFlashDefault) else db.devices[d]
    {
      DeviceGoesIff(db, call, o, db', d);
      StatusAfter(db, call, o, db', d);
    }
    NothingComes(db, call, o, db');
    WorkersUntouched(db, call, o, db');
    forall d, c ensures db.log <= db'.log && multiset(db'.log[|db.log|..])[ReservationEnd(d, c)] ==
                          if d in gone && d in db.reservations && db.reservations[d].client == c then 1 else 0
    {
      EndsAnnounced(db, call, o, db', d, c);
    }
    hide *;
  }

  lemma NothingComes(db: Db, call: Call, o: Outcome, db': Db)
    requires (call.End? || call.EndAll? || call.ReservationTimeouts?) && Executes(db, call, o, db')
    ensures db'.reservations.Keys <= db.reservations.Keys && db'.devices.Keys <= db.devices.Keys
  {
    hide Announces;
  }

  /** The expiry procedure at `now`: exactly the rows that ended before are given back. */
  lemma ExpiryMeans(db: Db, now: int, o: Outcome, db': Db)
    requires Executes(db, ReservationTimeouts(now), o, db')
    ensures Gives(db, db', set d | d in db.reservations && db.reservations[d].until < now)
  {
    GivesBack(db, ReservationTimeouts(now), o, db', set d | d in db.reservations && db.reservations[d].until < now);
  }

  /** `end_all_reservations`: exactly the rows of the caller are given back. */
  lemma EndAllMeans(db: Db, client: Client, o: Outcome, db': Db)
    requires Executes(db, EndAll(client), o, db')
    ensures Gives(db, db', set d | d in db.reservations && db.reservations[d].client == client)
  {
    GivesBack(db, EndAll(client), o, db', set d | d in db.reservations && db.reservations[d].client == client);
  }

  // ---------------------------------------------------------------- expiry, over runs with a clock

  /** After the expiry procedure has run no lease is overdue. */
  lemma NoneOverdue(run: Run, times: seq<int>, j: nat, d: Serial)
    requires Timed(run, times) && j < |times| && run.calls[j].ReservationTimeouts?
    requires d in run.states[j + 1].reservations
    ensures times[j] <= run.states[j + 1].reservations[d].until
  {
    hide Executes;
    assert StepAt(run, j) && NowOf(run.calls[j], times[j]);
    var db, db' := run.states[j], run.states[j + 1];
    if d in db.reservations {
      RowGoesIff(db, run.calls[j], run.outcomes[j], db', d);
      RowStays(db, run.calls[j], run.outcomes[j], db', d);
    } else {
      RowComes(db, run.calls[j], run.outcomes[j], db', d);
    }
  }

  /** The expiry procedure takes a lease exactly if its end has passed, and then sends the device to be
      flashed. */
  lemma LeaseTakenIff(run: Run, times: seq<int>, d: Serial, row: Row, j: nat)
    requires Timed(run, times) && j < |times| && run.calls[j].ReservationTimeouts?
    requires Holds(run.states[j], d, row)
    ensures Holds(run.states[j + 1], d, row) <==> times[j] <= row.until
    ensures row.until < times[j] ==> d !in run.states[j + 1].reservations
    ensures row.until < times[j] && d in run.states[j].devices ==>
              && d in run.states[j + 1].devices
              && run.states[j + 1].devices[d] == Device(run.states[j].devices[d].worker, AwaitFlashDefault)
  {
    hide Executes;
    assert StepAt(run, j) && NowOf(run.calls[j], times[j]);
    var db, db' := run.states[j], run.states[j + 1];
    RowGoesIff(db, run.calls[j], run.outcomes[j], db', d);
    if d in db'.reservations {
      RowStays(db, run.calls[j], run.outcomes[j], db', d);
    }
    if d in db.devices {
      DeviceGoesIff(db, run.calls[j], run.outcomes[j], db', d);
      StatusAfter(db, run.calls[j], run.outcomes[j], db', d);
    }
  }

  /** So a lease that nobody extends is gone, whatever else happens, once the expiry procedure has run after
      its end. */
  lemma OverdueIsGone(run: Run, times: seq<int>, d: Serial, row: Row, j: nat)
    requires Timed(run, times) && j < |times| && run.calls[j].ReservationTimeouts? && row.until < times[j]
    ensures !Holds(run.states[j + 1], d, row)
  {
    if Holds(run.states[j + 1], d, row) {
      NoneOverdue(run, times, j, d);
    }
  }

  // ---------------------------------------------------------------- heartbeats, over runs with a clock

  /** The call is a sign of life of `w`. */
  ghost predicate Beats(call: Call, w: WorkerId) {
    (call.AddWorker? || call.HeartbeatWorker?) && call.id == w
  }

  lemma HeartbeatAfter(db: Db, call: Call, o: Outcome, db': Db, w: WorkerId, t: int)
    requires Executes(db, call, o, db') && NowOf(call, t) && w in db'.workers
    ensures Beats(call, w) ==> db'.workers[w].heartbeat == t
    ensures !Beats(call, w) ==> w in db.workers && db'.workers[w].heartbeat == db.workers[w].heartbeat
  {
    if call.MakeAny? || call.MakeSpecific? || call.Extend? || call.ExtendAll? || call.End? || call.EndAll?
       || call.ReservationTimeouts? {
      WorkersUntouched(db, call, o, db');
      hide Executes;
    } else {
      hide Announces, DevicesOf;
    }
  }

  /** A registered worker's heartbeat is the time of its last sign of life. */
  lemma {:induction false} LastBeat(run: Run, times: seq<int>, w: WorkerId, n: nat) returns (i: nat)
    requires Timed(run, times) && n < |run.states| && w in run.states[n].workers
    ensures i < n && Beats(run.calls[i], w) && run.states[n].workers[w].heartbeat == times[i]
    ensures forall k | i < k < n :: !Beats(run.calls[k], w)
    decreases n
  {
    hide Executes, NowOf, Beats;
    assert StepAt(run, n - 1) && NowOf(run.calls[n - 1], times[n - 1]);
    HeartbeatAfter(run.states[n - 1], run.calls[n - 1], run.outcomes[n - 1], run.states[n], w, times[n - 1]);
    if Beats(run.calls[n - 1], w) {
      i := n - 1;
    } else {
      i := LastBeat(run, times, w, n - 1);
    }
  }

  lemma SilentGoes(db: Db, seconds: int, now: int, o: Outcome, db': Db, w: WorkerId)
    requires Executes(db, WorkerTimeouts(seconds, now), o, db') && w in db.workers
    ensures w !in db'.workers <==> db.workers[w].heartbeat < now - seconds
  {
    hide Announces, DevicesOf;
  }

  /** The timeout procedure takes exactly the workers without a sign of life in the last `seconds`. */
  lemma TimedOutIff(run: Run, times: seq<int>, w: WorkerId, seconds: int, j: nat)
    requires Timed(run, times) && j < |times| && run.calls[j] == WorkerTimeouts(seconds, times[j])
    requires w in run.states[j].workers
    ensures w !in run.states[j + 1].workers <==>
            forall i: nat | i < j && Beats(run.calls[i], w) :: times[i] < times[j] - seconds
  {
    hide Executes;
    assert StepAt(run, j);
    SilentGoes(run.states[j], seconds, times[j], run.outcomes[j], run.states[j + 1], w);
    var last := LastBeat(run, times, w, j);
    forall i: nat | i < j && Beats(run.calls[i], w) ensures times[i] <= times[last] {
    }
  }

  /** A worker comes only by being added; it goes only by a timeout or with all workers. */
  lemma WorkerChanges(db: Db, call: Call, o: Outcome, db': Db, w: WorkerId)
    requires Executes(db, call, o, db')
    ensures w !in db.workers && w in db'.workers ==> call.AddWorker? && call.id == w
    ensures w in db.workers && w !in db'.workers ==> call.WorkerTimeouts? || call.DeleteAllWorkers?
    ensures call.DeleteAllWorkers? ==> db'.workers == map[]
    ensures call.AddWorker? && call.id == w ==>
              w in db'.workers && db'.workers[w] == Worker(call.now, call.reservables, false)
    ensures w in db.workers && w in db'.workers && !(call.AddWorker? && call.id == w) ==>
              && db'.workers[w].reservables == db.workers[w].reservables
              && (db'.workers[w].shuttingDown <==> db.workers[w].shuttingDown || call == ShutdownWorker(w))
  {
    if call.MakeAny? || call.MakeSpecific? || call.Extend? || call.ExtendAll? || call.End? || call.EndAll?
       || call.ReservationTimeouts? {
      WorkersUntouched(db, call, o, db');
      hide Executes;
    } else {
      hide Announces, DevicesOf;
    }
  }
}
