/** What the reservation database keeps over every run of its procedures. */
module ReservationRuns {
  import opened Sequences
  import opened ReservationModel

  // ---------------------------------------------------------------- the invariant

  /** Foreign keys hold, and an available device has no reservation row. */
  ghost predicate Inv(db: Db) {
    && (forall d | d in db.devices :: db.devices[d].worker in db.workers)
    && (forall d | d in db.reservations :: d in db.devices && db.devices[d].status != Available)
  }

  /** The one duty of the workers: report a device available only once its row is gone. */
  ghost predicate Disciplined(db: Db, call: Call) {
    call.UpdateStatus? && call.status == Available ==> call.device !in db.reservations
  }

  lemma ExecutesKeepsInv(db: Db, call: Call, o: Outcome, db': Db)
    requires Inv(db) && Executes(db, call, o, db') && Disciplined(db, call)
    ensures Inv(db')
  {
    if call.MakeAny? || call.MakeSpecific? {
      if o.ok {
        EligibleAreFree(db, call.kind);
        BookedKeepsInv(db, o.rows, call.client, call.now);
      }
      hide Inv, Booked, Eligible;
    } else if call.AddWorker? || call.WorkerTimeouts? || call.DeleteAllWorkers? || call.ClearDevices? {
      RemovalKeepsInv(db, call, o, db');
    } else if call.Extend? || call.ExtendAll? {
      ExtendedKeepsInv(db, o.rows, call.now);
      hide Inv, Extended;
    } else if call.End? || call.EndAll? || call.ReservationTimeouts? {
      ReleasedKeepsInv(db, o.rows, o.notices);
      hide Inv, Released;
    } else {
      SmallCallKeepsInv(db, call, o, db');
    }
  }

  lemma RemovalKeepsInv(db: Db, call: Call, o: Outcome, db': Db)
    requires call.AddWorker? || call.WorkerTimeouts? || call.DeleteAllWorkers? || call.ClearDevices?
    requires Inv(db) && Executes(db, call, o, db')
    ensures Inv(db')
  {
    hide Announces;
    match call {
      case AddWorker(id, _, _) => WorkersDeletedKeepsInv(db, {id}, o.notices);
      case WorkerTimeouts(seconds, now) =>
        WorkersDeletedKeepsInv(db, (set w | w in db.workers && db.workers[w].heartbeat < now - seconds), o.notices);
      case DeleteAllWorkers => WorkersDeletedKeepsInv(db, db.workers.Keys, o.notices);
      case ClearDevices => DevicesDeletedKeepsInv(db, o.rows, o.notices);
    }
  }

  lemma SmallCallKeepsInv(db: Db, call: Call, o: Outcome, db': Db)
    requires call.ShutdownWorker? || call.HeartbeatWorker? || call.AddDevice? || call.UpdateStatus?
          || call.EndingSoon? || call.ClearReservations?
    requires Inv(db) && Executes(db, call, o, db') && Disciplined(db, call)
    ensures Inv(db')
  {
    hide Announces;
  }

  lemma ExtendedKeepsInv(db: Db, rows: set<Serial>, now: int)
    requires Inv(db)
    ensures Inv(Extended(db, rows, now))
  {
  }

  lemma ReleasedKeepsInv(db: Db, rows: set<Serial>, notices: seq<Notice>)
    requires Inv(db)
    ensures Inv(Released(db, rows, notices))
  {
  }

  lemma DevicesDeletedKeepsInv(db: Db, gone: set<Serial>, notices: seq<Notice>)
    requires Inv(db)
    ensures Inv(DevicesDeleted(db, gone, notices))
  {
  }

  lemma WorkersDeletedKeepsInv(db: Db, gone: set<WorkerId>, notices: seq<Notice>)
    requires Inv(db)
    ensures Inv(WorkersDeleted(db, gone, notices))
  {
  }

  lemma BookedKeepsInv(db: Db, rows: set<Serial>, client: Client, now: int)
    requires Inv(db) && rows <= AvailableDevices(db.devices)
    ensures Inv(Booked(db, rows, client, now))
  {
  }

  /** No double booking: what `make_*` picks is free, so the insert never meets a key conflict. */
  lemma EligibleAreFree(db: Db, kind: Kind)
    requires Inv(db)
    ensures Eligible(db, kind) !! db.reservations.Keys
    ensures Eligible(db, kind) <= AvailableDevices(db.devices)
  {
  }

  /** The duty is exactly what it takes: a step keeps the invariant if and only if it is disciplined. */
  lemma KeepsInvIff(db: Db, call: Call, o: Outcome, db': Db)
    requires Inv(db) && Executes(db, call, o, db')
    ensures Inv(db') <==> Disciplined(db, call)
  {
    if Disciplined(db, call) {
      ExecutesKeepsInv(db, call, o, db');
    }
  }

  /** What a breach costs: a device that is available although it has a row makes every request that
      names it abort on the primary key. */
  lemma UndisciplinedConflict(db: Db, client: Client, serials: seq<Serial>, kind: Kind, now: int,
                              o: Outcome, db': Db, d: Serial)
    requires d in Eligible(db, kind) && d in db.reservations && d in serials
    requires Executes(db, MakeSpecific(client, serials, kind, now), o, db')
    ensures !o.ok && db' == db
  {
  }

  // ---------------------------------------------------------------- all or nothing

  ghost function Members(serials: seq<Serial>): set<Serial> {
    set d | d in serials
  }

  lemma {:induction false} MembersCount(serials: seq<Serial>)
    ensures |Members(serials)| <= |serials|
    ensures |Members(serials)| == |serials| <==> NoDuplicates(serials)
  {
    if serials != [] {
      var front, last := serials[..|serials| - 1], serials[|serials| - 1];
      MembersCount(front);
      assert serials == front + [last];
      assert Members(serials) == Members(front) + {last};
      if last in front {
        assert Members(serials) == Members(front);
      } else if NoDuplicates(front) {
        forall i, j | 0 <= i < j < |serials| ensures serials[i] != serials[j] {
          assert serials[i] == front[i];
          if j < |front| { assert serials[j] == front[j]; }
        }
      } else {
        var i, j :| 0 <= i < j < |front| && front[i] == front[j];
        assert serials[i] == serials[j];
      }
    }
  }

  lemma SameSizeSubset<T>(x: set<T>, y: set<T>)
    requires x <= y
    ensures |x| <= |y| && (|x| == |y| ==> x == y)
  {
    assert y == x + (y - x);
  }

  /** `make_specific_reservations` succeeds exactly when the serials are pairwise distinct and all
      eligible; then it reserves precisely those for the caller, else it changes nothing. */
  lemma MakeSpecificIff(db: Db, client: Client, serials: seq<Serial>, kind: Kind, now: int, o: Outcome, db': Db)
    requires Inv(db) && Executes(db, MakeSpecific(client, serials, kind, now), o, db')
    ensures o.ok <==> NoDuplicates(serials) && forall d | d in serials :: d in Eligible(db, kind)
    ensures !o.ok ==> db' == db
    ensures o.ok ==> NewlyHeld(db, db', Members(serials), client, now)
  {
    hide Executes, Booked, NewlyHeld, NoDuplicates, Members;
    EligibleAreFree(db, kind);
    MembersCount(serials);
    PickedSpecific(db, client, serials, kind, now, o, db');
    SameSizeSubset(o.rows, Members(serials));
    BookedHolds(db, o.rows, client, now);
  }

  lemma PickedSpecific(db: Db, client: Client, serials: seq<Serial>, kind: Kind, now: int, o: Outcome, db': Db)
    requires Executes(db, MakeSpecific(client, serials, kind, now), o, db')
    ensures o.rows <= Members(serials) && o.rows <= Eligible(db, kind)
    ensures o.rows == Members(serials) <==> forall d | d in serials :: d in Eligible(db, kind)
    ensures o.ok <==> |o.rows| == |serials| && o.rows !! db.reservations.Keys
    ensures db' == if o.ok then Booked(db, o.rows, client, now) else db
  {
    hide Eligible, Booked;
    if forall d | d in serials :: d in Eligible(db, kind) {
      assert o.rows == Members(serials);
    }
  }

  lemma BookedHolds(db: Db, rows: set<Serial>, client: Client, now: int)
    ensures rows <= AvailableDevices(db.devices) && rows !! db.reservations.Keys ==>
              NewlyHeld(db, Booked(db, rows, client, now), rows, client, now)
  {
  }

  /** Exactly the devices of `rows` went from available to reserved, with new one-hour rows. */
  ghost predicate NewlyHeld(db: Db, db': Db, rows: set<Serial>, client: Client, now: int) {
    && rows !! db.reservations.Keys && db'.reservations.Keys == db.reservations.Keys + rows
    && (forall d | d in rows :: db'.reservations[d] == Row(client, now + 3600))
    && (forall d | d in db.reservations :: db'.reservations[d] == db.reservations[d])
    && db'.devices.Keys == db.devices.Keys && rows <= db.devices.Keys
    && (forall d | d in rows ::
          db.devices[d].status == Available && db'.devices[d] == db.devices[d].(status := Reserved))
    && (forall d | d in db.devices && d !in rows :: db'.devices[d] == db.devices[d])
    && db'.workers == db.workers && db'.log == db.log
  }

  /** `make_reservations` succeeds exactly when at least `amount` devices are eligible. */
  lemma MakeAnyIff(db: Db, amount: int, client: Client, kind: Kind, now: int, o: Outcome, db': Db)
    requires Inv(db) && Executes(db, MakeAny(amount, client, kind, now), o, db')
    ensures o.ok <==> 0 <= amount <= |Eligible(db, kind)|
    ensures !o.ok ==> db' == db
    ensures o.ok ==> |o.rows| == amount && o.rows <= Eligible(db, kind) && NewlyHeld(db, db', o.rows, client, now)
  {
    EligibleAreFree(db, kind);
    BookedHolds(db, o.rows, client, now);
    hide Booked, NewlyHeld, Eligible;
  }

  /** The client on whose behalf a call runs. */
  ghost function Caller(call: Call): set<Client> {
    match call
    case MakeAny(_, client, _, _) => {client}
    case MakeSpecific(client, _, _, _) => {client}
    case Extend(client, _, _) => {client}
    case ExtendAll(client, _) => {client}
    case End(client, _) => {client}
    case EndAll(client) => {client}
    case _ => {}
  }

  /** A client's calls never touch the rows of anyone else. */
  lemma OthersUntouched(db: Db, call: Call, o: Outcome, db': Db, d: Serial)
    requires Inv(db) && Executes(db, call, o, db') && Caller(call) != {}
    requires d in db.reservations && db.reservations[d].client !in Caller(call)
    ensures d in db'.reservations && db'.reservations[d] == db.reservations[d]
    ensures d in db'.devices && db'.devices[d] == db.devices[d]
  {
    hide Announces;
    if call.MakeAny? || call.MakeSpecific? {
      EligibleAreFree(db, call.kind);
    }
  }

  // ---------------------------------------------------------------- the ledger

  /** The (device, client) of every live row, and of every announced end. */
  ghost function LiveSet(reservations: map<Serial, Row>): set<(Serial, Client)> {
    set d | d in reservations :: (d, reservations[d].client)
  }

  ghost function Announced(log: seq<Notice>): multiset<(Serial, Client)> {
    if log == [] then multiset{}
    else Announced(log[..|log| - 1]) +
         (match log[|log| - 1]
          case ReservationEnd(d, c) => multiset{(d, c)}
          case DevicesAvailable(_) => multiset{})
  }

  /** Every row ever inserted is live, or was announced exactly once with its own values. */
  ghost predicate Balanced(db: Db) {
    db.made == multiset(LiveSet(db.reservations)) + Announced(db.log)
  }

  lemma {:induction false} AnnouncedConcat(x: seq<Notice>, y: seq<Notice>)
    ensures Announced(x + y) == Announced(x) + Announced(y)
  {
    if y == [] {
      assert x + y == x;
    } else {
      assert (x + y)[..|x + y| - 1] == x + y[..|y| - 1];
      AnnouncedConcat(x, y[..|y| - 1]);
    }
  }

  /** Counting an announced end in a log of ends is counting its notice. */
  lemma {:induction false} AnnouncedCounts(log: seq<Notice>, d: Serial, c: Client)
    ensures Announced(log)[(d, c)] == multiset(log)[ReservationEnd(d, c)]
  {
    if log != [] {
      AnnouncedCounts(log[..|log| - 1], d, c);
      assert log == log[..|log| - 1] + [log[|log| - 1]];
    }
  }

  lemma DeleteBalances(reservations: map<Serial, Row>, rows: set<Serial>, notices: seq<Notice>)
    requires Announces(notices, rows, reservations)
    ensures multiset(LiveSet(reservations)) == multiset(LiveSet(reservations - rows)) + Announced(notices)
  {
    var ends := EndNotices(rows, reservations);
    forall p: (Serial, Client)
      ensures multiset(LiveSet(reservations))[p] ==
              multiset(LiveSet(reservations - rows))[p] + Announced(notices)[p]
    {
      AnnouncedCounts(notices, p.0, p.1);
      assert Announced(notices)[p] == multiset(ends)[ReservationEnd(p.0, p.1)];
      if p in LiveSet(reservations) {
        assert p.0 in reservations && reservations[p.0].client == p.1;
        if p.0 in rows { assert ReservationEnd(p.0, p.1) in ends; }
        else { assert p.0 in reservations - rows; }
      }
    }
  }

  lemma BookBalances(db: Db, rows: set<Serial>, client: Client, now: int)
    requires Balanced(db) && rows !! db.reservations.Keys
    ensures Balanced(Booked(db, rows, client, now))
  {
    BookedRows(db, rows, client, now);
    var live, added := LiveSet(db.reservations), set d | d in rows :: (d, client);
    assert live !! added;
    hide LiveSet, Booked, Announced;
    DisjointUnion(live, added);
  }

  lemma DisjointUnion<T>(x: set<T>, y: set<T>)
    requires x !! y
    ensures multiset(x + y) == multiset(x) + multiset(y)
  {
  }

  lemma BookedRows(db: Db, rows: set<Serial>, client: Client, now: int)
    requires rows !! db.reservations.Keys
    ensures LiveSet(Booked(db, rows, client, now).reservations) ==
            LiveSet(db.reservations) + (set d | d in rows :: (d, client))
    ensures Booked(db, rows, client, now).made == db.made + multiset(set d | d in rows :: (d, client))
    ensures Booked(db, rows, client, now).log == db.log
  {
    var db' := Booked(db, rows, client, now);
    var added := set d | d in rows :: (d, client);
    forall p ensures p in LiveSet(db'.reservations) <==> p in LiveSet(db.reservations) || p in added {
      if p in LiveSet(db.reservations) {
        assert p.0 in db.reservations && db'.reservations[p.0] == db.reservations[p.0];
      }
      if p in added {
        assert db'.reservations[p.0].client == client;
      }
    }
  }

  lemma RemovalBalances(db: Db, rows: set<Serial>, notices: seq<Notice>, db': Db)
    requires Balanced(db) && Announces(notices, rows, db.reservations)
    requires db'.made == db.made && db'.log == db.log + notices && db'.reservations == db.reservations - rows
    ensures Balanced(db')
  {
    DeleteBalances(db.reservations, rows, notices);
    AnnouncedConcat(db.log, notices);
  }

  lemma ExtendBalances(db: Db, rows: set<Serial>, now: int)
    requires Balanced(db)
    ensures Balanced(Extended(db, rows, now))
  {
    var r, r' := db.reservations, Extended(db, rows, now).reservations;
    forall p ensures p in LiveSet(r') <==> p in LiveSet(r) {
      if p in LiveSet(r) { assert p.0 in r' && r'[p.0].client == p.1; }
    }
    assert LiveSet(r') == LiveSet(r);
  }

  lemma ExecutesBalances(db: Db, call: Call, o: Outcome, db': Db)
    requires Balanced(db) && Executes(db, call, o, db')
    ensures Balanced(db')
  {
    match call {
      case MakeAny(_, client, _, now) => if o.ok { BookBalances(db, o.rows, client, now); }
      case MakeSpecific(client, _, _, now) => if o.ok { BookBalances(db, o.rows, client, now); }
      case Extend(_, _, now) => ExtendBalances(db, o.rows, now);
      case ExtendAll(_, now) => ExtendBalances(db, o.rows, now);
      case UpdateStatus(_, _) => AnnouncedConcat(db.log, o.notices);
      case ShutdownWorker(_) =>
      case HeartbeatWorker(_, _) =>
      case AddDevice(_, _) =>
      case EndingSoon(_, _) =>
      case _ => RemovalBalances(db, o.rows, o.notices, db');
    }
  }

  // ---------------------------------------------------------------- runs

  datatype Run = Run(states: seq<Db>, calls: seq<Call>, outcomes: seq<Outcome>)

  ghost predicate StepAt(run: Run, i: nat)
    requires i < |run.calls| && i < |run.outcomes| && i + 1 < |run.states|
  {
    Executes(run.states[i], run.calls[i], run.outcomes[i], run.states[i + 1])
  }

  ghost predicate IsRun(run: Run) {
    && |run.states| == |run.calls| + 1 == |run.outcomes| + 1
    && run.states[0] == Db(map[], map[], map[], [], multiset{})
    && forall i | 0 <= i < |run.calls| :: StepAt(run, i)
  }

  ghost function Last(run: Run): Db
    requires run.states != []
  {
    run.states[|run.states| - 1]
  }

  ghost function Then(run: Run, call: Call, o: Outcome, db: Db): Run {
    Run(run.states + [db], run.calls + [call], run.outcomes + [o])
  }

  lemma ThenIsRun(run: Run, call: Call, o: Outcome, db: Db)
    requires IsRun(run) && Executes(Last(run), call, o, db)
    ensures IsRun(Then(run, call, o, db)) && Last(Then(run, call, o, db)) == db
  {
    hide Executes;
    var longer := Then(run, call, o, db);
    forall i | 0 <= i < |longer.calls| ensures StepAt(longer, i) {
      if i < |run.calls| {
        assert StepAt(run, i);
      }
    }
  }

  ghost predicate WorkersBehave(run: Run) {
    |run.calls| <= |run.states| && forall i | 0 <= i < |run.calls| :: Disciplined(run.states[i], run.calls[i])
  }

  /** No double booking, over every run in which the workers keep their duty. */
  lemma {:induction false} NoDoubleBooking(run: Run, n: nat)
    requires IsRun(run) && WorkersBehave(run) && n < |run.states|
    ensures Inv(run.states[n])
  {
    if n > 0 {
      hide Inv, Executes, Disciplined;
      NoDoubleBooking(run, n - 1);
      assert StepAt(run, n - 1);
      ExecutesKeepsInv(run.states[n - 1], run.calls[n - 1], run.outcomes[n - 1], run.states[n]);
    }
  }

  /** And only in those: every state is free of double bookings if and only if the workers behave. */
  lemma NoDoubleBookingIff(run: Run)
    requires IsRun(run)
    ensures (forall n | 0 <= n < |run.states| :: Inv(run.states[n])) <==> WorkersBehave(run)
  {
    hide Inv, Executes, Disciplined;
    if WorkersBehave(run) {
      forall n | 0 <= n < |run.states| ensures Inv(run.states[n]) {
        NoDoubleBooking(run, n);
      }
    } else {
      var i :| 0 <= i < |run.calls| && !Disciplined(run.states[i], run.calls[i]);
      if Inv(run.states[i]) {
        assert StepAt(run, i);
        KeepsInvIff(run.states[i], run.calls[i], run.outcomes[i], run.states[i + 1]);
      }
    }
  }

  /** The ledger, over every run whatever the workers do. */
  lemma {:induction false} Ledger(run: Run, n: nat)
    requires IsRun(run) && n < |run.states|
    ensures Balanced(run.states[n])
  {
    if n == 0 {
      assert LiveSet(map[]) == {};
    } else {
      hide Balanced, Executes;
      Ledger(run, n - 1);
      assert StepAt(run, n - 1);
      ExecutesBalances(run.states[n - 1], run.calls[n - 1], run.outcomes[n - 1], run.states[n]);
    }
  }

  // ---------------------------------------------------------------- between two reservations

  ghost predicate IsAvailable(db: Db, d: Serial) {
    d in db.devices && db.devices[d].status == Available
  }

  /** Call `i` reserves `d`. */
  ghost predicate Books(run: Run, i: nat, d: Serial)
    requires i < |run.calls| && i < |run.outcomes|
  {
    (run.calls[i].MakeAny? || run.calls[i].MakeSpecific?) && run.outcomes[i].ok && d in run.outcomes[i].rows
  }

  /** What calls other than reports do to the devices. */
  lemma DevicesAfter(db: Db, call: Call, o: Outcome, db': Db) returns (gone: set<Serial>, held: set<Serial>)
    requires Executes(db, call, o, db') && !call.UpdateStatus? && !call.AddDevice?
    ensures db'.devices == db.devices - gone || db'.devices == Restatus(db.devices, held, Reserved)
         || db'.devices == Restatus(db.devices, held, AwaitFlashDefault)
  {
    hide Announces, Restatus, RowsOf, NamedRowsOf, Eligible;
    gone := if db'.devices == db.devices then {} else o.rows;
    held := o.rows;
    assert db.devices - {} == db.devices;
  }

  /** Nothing but a worker's report makes a device available. */
  lemma OnlyReportsFree(db: Db, call: Call, o: Outcome, db': Db, d: Serial)
    requires Executes(db, call, o, db') && !IsAvailable(db, d) && IsAvailable(db', d)
    ensures call == UpdateStatus(d, Available)
  {
    if !call.UpdateStatus? && !call.AddDevice? {
      var _, _ := DevicesAfter(db, call, o, db');
      hide Executes;
    } else {
      hide Announces;
    }
  }

  lemma {:induction false} AvailableIfReported(run: Run, i: nat, j: nat, d: Serial) returns (k: nat)
    requires IsRun(run) && i <= j < |run.states| && !IsAvailable(run.states[i], d) && IsAvailable(run.states[j], d)
    ensures i <= k < j && run.calls[k] == UpdateStatus(d, Available)
    decreases j
  {
    hide Executes, IsAvailable;
    assert i < j;
    assert StepAt(run, j - 1);
    if IsAvailable(run.states[j - 1], d) {
      k := AvailableIfReported(run, i, j - 1, d);
    } else {
      k := j - 1;
      OnlyReportsFree(run.states[k], run.calls[k], run.outcomes[k], run.states[j], d);
    }
  }

  lemma BooksWhenAvailable(run: Run, i: nat, d: Serial)
    requires IsRun(run) && i < |run.calls| && Books(run, i, d)
    ensures IsAvailable(run.states[i], d) && !IsAvailable(run.states[i + 1], d)
  {
    hide Announces;
    assert StepAt(run, i);
  }

  /** Between two reservations of a device, by whichever path the first one ended, its worker has
      reported it available again. */
  lemma ReportedBetweenBookings(run: Run, i: nat, j: nat, d: Serial) returns (k: nat)
    requires IsRun(run) && i < j < |run.calls| && Books(run, i, d) && Books(run, j, d)
    ensures i < k < j && run.calls[k] == UpdateStatus(d, Available)
  {
    hide Books, IsAvailable, Executes;
    BooksWhenAvailable(run, i, d);
    BooksWhenAvailable(run, j, d);
    k := AvailableIfReported(run, i + 1, j, d);
  }

  /** `end_reservations`: of all rows exactly the caller's named ones go, each announced once, and of
      all devices exactly theirs are sent back to be flashed. */
  lemma EndMeans(db: Db, client: Client, serials: seq<Serial>, o: Outcome, db': Db)
    requires Inv(db) && Executes(db, End(client, serials), o, db')
    ensures forall d | d in db.reservations ::
              if db.reservations[d].client == client && d in serials
              then d !in db'.reservations && db'.devices[d] == db.devices[d].(status := AwaitFlashDefault)
              else d in db'.reservations && db'.reservations[d] == db.reservations[d] && db'.devices[d] == db.devices[d]
    ensures forall d | d in db.devices && d !in db.reservations :: db'.devices[d] == db.devices[d]
    ensures db'.reservations.Keys <= db.reservations.Keys && db'.devices.Keys == db.devices.Keys
    ensures |db'.log| == |db.log| + |db.reservations| - |db'.reservations| && db.log <= db'.log
  {
    hide Executes, Announces;
    EndTouches(db, client, serials, o, db');
    EndCounts(db, client, serials, o, db');
  }

  lemma EndTouches(db: Db, client: Client, serials: seq<Serial>, o: Outcome, db': Db)
    requires Inv(db) && Executes(db, End(client, serials), o, db')
    ensures forall d | d in db.reservations ::
              if db.reservations[d].client == client && d in serials
              then d !in db'.reservations && db'.devices[d] == db.devices[d].(status := AwaitFlashDefault)
              else d in db'.reservations && db'.reservations[d] == db.reservations[d] && db'.devices[d] == db.devices[d]
    ensures forall d | d in db.devices && d !in db.reservations :: db'.devices[d] == db.devices[d]
    ensures db'.reservations.Keys <= db.reservations.Keys && db'.devices.Keys == db.devices.Keys
  {
    hide Announces;
  }

  lemma EndCounts(db: Db, client: Client, serials: seq<Serial>, o: Outcome, db': Db)
    requires Executes(db, End(client, serials), o, db')
    ensures |db'.log| == |db.log| + |db.reservations| - |db'.reservations| && db.log <= db'.log
  {
    assert o.rows <= db.reservations.Keys && db'.reservations == db.reservations - o.rows;
    assert db'.log == db.log + o.notices && multiset(o.notices) == multiset(EndNotices(o.rows, db.reservations));
    hide Executes, EndNotices;
    RowsGone(db.reservations, o.rows);
    EndNoticesCount(o.rows, db.reservations);
    NoticesPerRow(o.notices, EndNotices(o.rows, db.reservations));
  }

  lemma RowsGone(reservations: map<Serial, Row>, rows: set<Serial>)
    requires rows <= reservations.Keys
    ensures |reservations - rows| == |reservations| - |rows|
  {
    assert reservations.Keys == (reservations - rows).Keys + rows;
  }

  lemma NoticesPerRow(notices: seq<Notice>, ends: set<Notice>)
    requires multiset(notices) == multiset(ends)
    ensures |notices| == |ends|
  {
    assert |multiset(notices)| == |notices|;
  }

  lemma {:induction false} EndNoticesCount(rows: set<Serial>, reservations: map<Serial, Row>)
    requires rows <= reservations.Keys
    ensures |EndNotices(rows, reservations)| == |rows|
  {
    if rows != {} {
      var d :| d in rows;
      EndNoticesCount(rows - {d}, reservations);
      var n := ReservationEnd(d, reservations[d].client);
      assert EndNotices(rows, reservations) == EndNotices(rows - {d}, reservations) + {n};
      assert n !in EndNotices(rows - {d}, reservations);
    }
  }

  // ---------------------------------------------------------------- availability

  ghost function AmountAvailable(db: Db): nat {
    |AvailableDevices(db.devices)|
  }

  /** One call: the number available grows by at most one, and a growth is announced. */
  lemma GrowthIsAnnounced(db: Db, call: Call, o: Outcome, db': Db)
    requires Executes(db, call, o, db')
    ensures db.log <= db'.log
    ensures AmountAvailable(db) < AmountAvailable(db') ==>
              db'.log == db.log + [DevicesAvailable(AmountAvailable(db'))]
  {
    hide Announces;
    if call.UpdateStatus? {
      var before, after := AvailableDevices(db.devices), AvailableDevices(db'.devices);
      if AmountAvailable(db) < AmountAvailable(db') && o.notices == [] {
        assert after <= before;
        SameSizeSubset(after, before);
      }
    } else {
      FewerAvailable(db, call, o, db');
    }
  }

  lemma FewerAvailable(db: Db, call: Call, o: Outcome, db': Db)
    requires Executes(db, call, o, db') && !call.UpdateStatus?
    ensures AmountAvailable(db') <= AmountAvailable(db)
  {
    var before, after := AvailableDevices(db.devices), AvailableDevices(db'.devices);
    forall d | d in after ensures d in before {
      assert IsAvailable(db', d);
      if !IsAvailable(db, d) {
        OnlyReportsFree(db, call, o, db', d);
      }
    }
    hide Executes;
    SameSizeSubset(after, before);
  }

  lemma {:induction false} LogGrows(run: Run, i: nat, j: nat)
    requires IsRun(run) && i <= j < |run.states|
    ensures run.states[i].log <= run.states[j].log
  {
    if i < j {
      LogGrows(run, i, j - 1);
      CallLogs(run, j - 1);
      PrefixOfPrefix(run.states[i].log, run.states[j - 1].log, run.states[j].log);
    }
  }

  lemma CallLogs(run: Run, i: nat)
    requires IsRun(run) && i < |run.calls|
    ensures run.states[i].log <= run.states[i + 1].log
  {
    hide Executes, AmountAvailable;
    assert StepAt(run, i);
    GrowthIsAnnounced(run.states[i], run.calls[i], run.outcomes[i], run.states[i + 1]);
  }

  /** No lost wake-up: if fewer than `n` devices were available and later at least `n` are, an
      announcement carrying at least `n` was sent in between. */
  lemma {:induction false} NoLostWakeUp(run: Run, i: nat, j: nat, n: nat) returns (k: nat)
    requires IsRun(run) && i <= j < |run.states|
    requires AmountAvailable(run.states[i]) < n <= AmountAvailable(run.states[j])
    ensures |run.states[i].log| <= k < |run.states[j].log|
    ensures run.states[j].log[k].DevicesAvailable? && n <= run.states[j].log[k].amount
    decreases j
  {
    hide Executes, AmountAvailable;
    var before, after := run.states[j - 1], run.states[j];
    LogGrows(run, i, j - 1);
    assert StepAt(run, j - 1);
    GrowthIsAnnounced(before, run.calls[j - 1], run.outcomes[j - 1], after);
    if n <= AmountAvailable(before) {
      k := NoLostWakeUp(run, i, j - 1, n);
    } else {
      k := |before.log|;
    }
  }
}
