/** The reservation database: its three tables, procedures, cascades and triggers
    (src/icefarm/control/flyway/migrations). Each call is one serial transaction. */
module ReservationModel {

  type WorkerId = string
  type Serial = string
  type Client = string
  type Kind = string

  datatype Status = Available | Reserved | AwaitFlashDefault | FlashingDefault | Testing | Broken

  datatype Worker = Worker(heartbeat: int, reservables: set<Kind>, shuttingDown: bool)
  datatype Device = Device(worker: WorkerId, status: Status)
  datatype Row = Row(client: Client, until: int)

  /** What the triggers announce: `reservation_updates` and `device_available`. */
  datatype Notice = ReservationEnd(device: Serial, client: Client) | DevicesAvailable(amount: nat)

  /** The tables, the announcements so far, and every reservation row ever inserted. */
  datatype Db = Db(
    workers: map<WorkerId, Worker>,
    devices: map<Serial, Device>,
    reservations: map<Serial, Row>,
    log: seq<Notice>,
    made: multiset<(Serial, Client)>)

  const LEASE: int := 3600

  datatype Call =
    | AddWorker(id: WorkerId, reservables: set<Kind>, now: int)
    | ShutdownWorker(id: WorkerId)
    | HeartbeatWorker(id: WorkerId, now: int)
    | WorkerTimeouts(seconds: int, now: int)
    | AddDevice(device: Serial, id: WorkerId)
    | UpdateStatus(device: Serial, status: Status)
    | MakeAny(amount: int, client: Client, kind: Kind, now: int)
    | MakeSpecific(client: Client, serials: seq<Serial>, kind: Kind, now: int)
    | Extend(client: Client, serials: seq<Serial>, now: int)
    | ExtendAll(client: Client, now: int)
    | End(client: Client, serials: seq<Serial>)
    | EndAll(client: Client)
    | ReservationTimeouts(now: int)
    | EndingSoon(mins: int, now: int)
    | ClearReservations
    | ClearDevices
    | DeleteAllWorkers

  /** `ok` is false when the procedure raises, `rows` the devices it selects, `notices` what its
      row triggers announce, in the order they fire. */
  datatype Outcome = Outcome(ok: bool, rows: set<Serial>, notices: seq<Notice>)

  // ---------------------------------------------------------------- queries

  function AvailableDevices(devices: map<Serial, Device>): set<Serial> {
    set d | d in devices && devices[d].status == Available
  }

  function Eligible(db: Db, kind: Kind): set<Serial> {
    set d | d in db.devices && db.devices[d].status == Available
            && db.devices[d].worker in db.workers
            && kind in db.workers[db.devices[d].worker].reservables
            && !db.workers[db.devices[d].worker].shuttingDown
  }

  function DevicesOf(db: Db, gone: set<WorkerId>): set<Serial> {
    set d | d in db.devices && db.devices[d].worker in gone
  }

  function RowsOf(db: Db, client: Client): set<Serial> {
    set d | d in db.reservations && db.reservations[d].client == client
  }

  function NamedRowsOf(db: Db, client: Client, serials: seq<Serial>): set<Serial> {
    set d | d in db.reservations && db.reservations[d].client == client && d in serials
  }

  /** `get_reservations_ending_soon`; its parameter is called `mins` but counts seconds. */
  function RowsEndingSoon(db: Db, mins: int, now: int): set<Serial> {
    set d | d in db.reservations && db.reservations[d].until < now + mins
  }

  // ---------------------------------------------------------------- statements

  function Restatus(devices: map<Serial, Device>, rows: set<Serial>, status: Status): map<Serial, Device> {
    map d | d in devices :: if d in rows then devices[d].(status := status) else devices[d]
  }

  ghost function EndNotices(rows: set<Serial>, reservations: map<Serial, Row>): set<Notice> {
    set d | d in rows && d in reservations :: ReservationEnd(d, reservations[d].client)
  }

  /** The delete trigger fires once per deleted row, with the row's own values. */
  ghost predicate Announces(notices: seq<Notice>, rows: set<Serial>, reservations: map<Serial, Row>) {
    multiset(notices) == multiset(EndNotices(rows, reservations))
  }

  /** `DELETE FROM reservations` for `rows`. */
  ghost function RowsDeleted(db: Db, rows: set<Serial>, notices: seq<Notice>): Db {
    db.(reservations := db.reservations - rows, log := db.log + notices)
  }

  /** `DELETE FROM device`, which cascades to the reservations. */
  ghost function DevicesDeleted(db: Db, gone: set<Serial>, notices: seq<Notice>): Db {
    RowsDeleted(db, gone, notices).(devices := db.devices - gone)
  }

  /** `DELETE FROM worker`, which cascades to devices and on to reservations. */
  ghost function WorkersDeleted(db: Db, gone: set<WorkerId>, notices: seq<Notice>): Db {
    DevicesDeleted(db, DevicesOf(db, gone), notices).(workers := db.workers - gone)
  }

  /** The two statements shared by `make_reservations` and `make_specific_reservations`. */
  ghost function Booked(db: Db, rows: set<Serial>, client: Client, now: int): Db {
    db.(devices := Restatus(db.devices, rows, Reserved),
        reservations := map d | d in db.reservations.Keys + rows ::
                          if d in rows then Row(client, now + LEASE) else db.reservations[d],
        made := db.made + multiset(set d | d in rows :: (d, client)))
  }

  ghost function Extended(db: Db, rows: set<Serial>, now: int): Db {
    db.(reservations := map d | d in db.reservations ::
                          if d in rows then db.reservations[d].(until := now + LEASE) else db.reservations[d])
  }

  /** Delete the rows, then send their devices back to be flashed. */
  ghost function Released(db: Db, rows: set<Serial>, notices: seq<Notice>): Db {
    RowsDeleted(db, rows, notices).(devices := Restatus(db.devices, rows, AwaitFlashDefault))
  }

  // ---------------------------------------------------------------- transactions

  /** `call` on `db` can end as `o`, leaving `db'`. A call that raises leaves `db` as it was. */
  ghost predicate Executes(db: Db, call: Call, o: Outcome, db': Db) {
    match call
    case AddWorker(id, reservables, now) =>
      && o.ok && o.rows == DevicesOf(db, {id}) && Announces(o.notices, o.rows, db.reservations)
      && db' == WorkersDeleted(db, {id}, o.notices).(
                  workers := (db.workers - {id})[id := Worker(now, reservables, false)])
    case ShutdownWorker(id) =>
      && o == Outcome(true, {}, [])
      && db' == if id in db.workers then db.(workers := db.workers[id := db.workers[id].(shuttingDown := true)]) else db
    case HeartbeatWorker(id, now) =>
      && o == Outcome(id in db.workers, {}, [])
      && db' == if o.ok then db.(workers := db.workers[id := db.workers[id].(heartbeat := now)]) else db
    case WorkerTimeouts(seconds, now) =>
      var gone := set w | w in db.workers && db.workers[w].heartbeat < now - seconds;
      && o.ok && o.rows == DevicesOf(db, gone) && Announces(o.notices, o.rows, db.reservations)
      && db' == WorkersDeleted(db, gone, o.notices)
    case AddDevice(device, id) =>
      && o == Outcome(id in db.workers && device !in db.devices, {}, [])
      && db' == if o.ok then db.(devices := db.devices[device := Device(id, AwaitFlashDefault)]) else db
    case UpdateStatus(device, status) =>
      && o.ok == (device in db.devices) && o.rows == {}
      && (!o.ok ==> o.notices == [] && db' == db)
      && (o.ok ==>
            var devices := db.devices[device := db.devices[device].(status := status)];
            && o.notices == (if db.devices[device].status != Available && status == Available
                             then [DevicesAvailable(|AvailableDevices(devices)|)] else [])
            && db' == db.(devices := devices, log := db.log + o.notices))
    case MakeAny(amount, client, kind, now) =>
      && o.notices == []
      && (amount < 0 ==> !o.ok)                      // LIMIT must not be negative
      && (0 <= amount ==>
            && o.rows <= Eligible(db, kind)
            && |o.rows| == (if amount < |Eligible(db, kind)| then amount else |Eligible(db, kind)|)
            && o.ok == (|o.rows| == amount && o.rows !! db.reservations.Keys))
      && db' == if o.ok then Booked(db, o.rows, client, now) else db
    case MakeSpecific(client, serials, kind, now) =>
      && o.notices == [] && o.rows == (set d | d in Eligible(db, kind) && d in serials)
      && o.ok == (|o.rows| == |serials| && o.rows !! db.reservations.Keys)
      && db' == if o.ok then Booked(db, o.rows, client, now) else db
    case Extend(client, serials, now) =>
      && o == Outcome(true, NamedRowsOf(db, client, serials), []) && db' == Extended(db, o.rows, now)
    case ExtendAll(client, now) =>
      && o == Outcome(true, RowsOf(db, client), []) && db' == Extended(db, o.rows, now)
    case End(client, serials) =>
      && o.ok && o.rows == NamedRowsOf(db, client, serials) && Announces(o.notices, o.rows, db.reservations)
      && db' == Released(db, o.rows, o.notices)
    case EndAll(client) =>
      && o.ok && o.rows == RowsOf(db, client) && Announces(o.notices, o.rows, db.reservations)
      && db' == Released(db, o.rows, o.notices)
    case ReservationTimeouts(now) =>
      && o.ok && o.rows == (set d | d in db.reservations && db.reservations[d].until < now)
      && Announces(o.notices, o.rows, db.reservations)
      && db' == Released(db, o.rows, o.notices)
    case EndingSoon(mins, now) =>
      o == Outcome(true, RowsEndingSoon(db, mins, now), []) && db' == db
    case ClearReservations =>
      && o.ok && o.rows == db.reservations.Keys && Announces(o.notices, o.rows, db.reservations)
      && db' == RowsDeleted(db, o.rows, o.notices)
    case ClearDevices =>
      && o.ok && o.rows == db.devices.Keys && Announces(o.notices, o.rows, db.reservations)
      && db' == DevicesDeleted(db, o.rows, o.notices)
    case DeleteAllWorkers =>
      && o.ok && o.rows == DevicesOf(db, db.workers.Keys) && Announces(o.notices, o.rows, db.reservations)
      && db' == WorkersDeleted(db, db.workers.Keys, o.notices)
  }

  // ---------------------------------------------------------------- the database itself

  class Database {
    var workers: map<WorkerId, Worker>
    var devices: map<Serial, Device>
    var reservations: map<Serial, Row>
    var log: seq<Notice>
    ghost var made: multiset<(Serial, Client)>

    ghost function View(): Db
      reads this
    {
      Db(workers, devices, reservations, log, made)
    }

    constructor ()
      ensures View() == Db(map[], map[], map[], [], multiset{})
    {
      workers, devices, reservations, log, made := map[], map[], map[], [], multiset{};
    }

    /** Deletes reservation rows and fires their triggers. */
    method DeleteRows(rows: set<Serial>) returns (notices: seq<Notice>)
      modifies this`reservations, this`log
      ensures Announces(notices, rows, old(reservations))
      ensures View() == RowsDeleted(old(View()), rows, notices)
    {
      notices := [];
      var rest := set d | d in rows && d in reservations;
      assert EndNotices(rest, reservations) == EndNotices(rows, reservations);
      while rest != {}
        invariant rest <= rows * reservations.Keys
        invariant reservations == old(reservations) && log == old(log)
        invariant multiset(notices) + multiset(EndNotices(rest, reservations)) ==
                  multiset(EndNotices(rows, reservations))
        decreases |rest|
      {
        var d :| d in rest;
        notices := notices + [ReservationEnd(d, reservations[d].client)];
        TakeNotice(rest, reservations, d);
        rest := rest - {d};
      }
      assert EndNotices({}, reservations) == {};
      assert multiset(notices) + multiset{} == multiset(notices);
      reservations := reservations - rows;
      log := log + notices;
    }

    method DeleteDevices(gone: set<Serial>) returns (notices: seq<Notice>)
      modifies this`devices, this`reservations, this`log
      ensures Announces(notices, gone, old(reservations))
      ensures View() == DevicesDeleted(old(View()), gone, notices)
    {
      devices := devices - gone;
      notices := DeleteRows(gone);
    }

    method DeleteWorkers(gone: set<WorkerId>) returns (notices: seq<Notice>)
      modifies this`workers, this`devices, this`reservations, this`log
      ensures Announces(notices, DevicesOf(old(View()), gone), old(reservations))
      ensures View() == WorkersDeleted(old(View()), gone, notices)
    {
      var lost := set d | d in devices && devices[d].worker in gone;
      assert lost == DevicesOf(View(), gone);
      workers := workers - gone;
      notices := DeleteDevices(lost);
    }

    method AddWorker(id: WorkerId, reservables: set<Kind>, now: int) returns (ghost o: Outcome)
      modifies this
      ensures Executes(old(View()), Call.AddWorker(id, reservables, now), o, View())
    {
      o := Outcome(true, DevicesOf(View(), {id}), []);
      var notices := DeleteWorkers({id});
      workers := workers[id := Worker(now, reservables, false)];
      o := o.(notices := notices);
    }

    method ShutdownWorker(id: WorkerId)
      modifies this`workers
      ensures Executes(old(View()), Call.ShutdownWorker(id), Outcome(true, {}, []), View())
    {
      if id in workers {
        workers := workers[id := workers[id].(shuttingDown := true)];
      }
    }

    method HeartbeatWorker(id: WorkerId, now: int) returns (ok: bool)
      modifies this`workers
      ensures Executes(old(View()), Call.HeartbeatWorker(id, now), Outcome(ok, {}, []), View())
    {
      if id !in workers {
        return false;
      }
      workers := workers[id := workers[id].(heartbeat := now)];
      ok := true;
    }

    method HandleWorkerTimeouts(seconds: int, now: int) returns (ghost o: Outcome)
      modifies this
      ensures Executes(old(View()), Call.WorkerTimeouts(seconds, now), o, View())
    {
      var gone := set w | w in workers && workers[w].heartbeat < now - seconds;
      o := Outcome(true, DevicesOf(View(), gone), []);
      var notices := DeleteWorkers(gone);
      o := o.(notices := notices);
    }

    method AddDevice(device: Serial, id: WorkerId) returns (ok: bool)
      modifies this`devices
      ensures Executes(old(View()), Call.AddDevice(device, id), Outcome(ok, {}, []), View())
    {
      if id !in workers {
        return false;
      }
      if device in devices {
        return false;
      }
      devices := devices[device := Device(id, AwaitFlashDefault)];
      ok := true;
    }

    method UpdateDeviceStatus(device: Serial, status: Status) returns (ok: bool, ghost notices: seq<Notice>)
      modifies this`devices, this`log
      ensures Executes(old(View()), Call.UpdateStatus(device, status), Outcome(ok, {}, notices), View())
    {
      notices := [];
      if device !in devices {
        return false, [];
      }
      var before := devices[device].status;
      devices := devices[device := devices[device].(status := status)];
      if before != Available && status == Available {
        var amount := |set d | d in devices && devices[d].status == Available|;
        log := log + [DevicesAvailable(amount)];
        notices := [DevicesAvailable(amount)];
      }
      ok := true;
    }

    /** UPDATE the devices and INSERT the reservations; false on a primary key conflict. */
    method Book(rows: set<Serial>, client: Client, now: int) returns (ok: bool)
      modifies this
      ensures ok <==> rows !! old(reservations.Keys)
      ensures View() == if ok then Booked(old(View()), rows, client, now) else old(View())
    {
      if exists d | d in rows :: d in reservations {
        return false;
      }
      devices := Restatus(devices, rows, Reserved);
      reservations := map d | d in reservations.Keys + rows ::
        if d in rows then Row(client, now + LEASE) else reservations[d];
      made := made + multiset(set d | d in rows :: (d, client));
      ok := true;
    }

    method EligibleDevices(kind: Kind) returns (rows: set<Serial>)
      ensures rows == Eligible(View(), kind)
    {
      rows := set d | d in devices && devices[d].status == Available
                      && devices[d].worker in workers
                      && kind in workers[devices[d].worker].reservables
                      && !workers[devices[d].worker].shuttingDown;
    }

    method MakeReservations(amount: int, client: Client, kind: Kind, now: int) returns (ok: bool, rows: set<Serial>)
      modifies this
      ensures Executes(old(View()), MakeAny(amount, client, kind, now), Outcome(ok, rows, []), View())
    {
      if amount < 0 {
        return false, {};
      }
      var all := EligibleDevices(kind);
      rows := Limit(all, amount);
      if |rows| != amount {
        return false, rows;
      }
      ok := Book(rows, client, now);
    }

    method MakeSpecificReservations(client: Client, serials: seq<Serial>, kind: Kind, now: int)
      returns (ok: bool, rows: set<Serial>)
      modifies this
      ensures Executes(old(View()), MakeSpecific(client, serials, kind, now), Outcome(ok, rows, []), View())
    {
      var all := EligibleDevices(kind);
      rows := set d | d in all && d in serials;
      if |rows| != |serials| {
        return false, rows;
      }
      ok := Book(rows, client, now);
    }

    method ExtendReservations(client: Client, serials: seq<Serial>, now: int) returns (rows: set<Serial>)
      modifies this`reservations
      ensures Executes(old(View()), Extend(client, serials, now), Outcome(true, rows, []), View())
    {
      rows := set d | d in reservations && reservations[d].client == client && d in serials;
      reservations := map d | d in reservations ::
        if d in rows then reservations[d].(until := now + LEASE) else reservations[d];
    }

    method ExtendAllReservations(client: Client, now: int) returns (rows: set<Serial>)
      modifies this`reservations
      ensures Executes(old(View()), ExtendAll(client, now), Outcome(true, rows, []), View())
    {
      rows := set d | d in reservations && reservations[d].client == client;
      reservations := map d | d in reservations ::
        if d in rows then reservations[d].(until := now + LEASE) else reservations[d];
    }

    /** DELETE the rows, then UPDATE their devices. */
    method Release(rows: set<Serial>) returns (notices: seq<Notice>)
      modifies this`devices, this`reservations, this`log
      ensures Announces(notices, rows, old(reservations))
      ensures View() == Released(old(View()), rows, notices)
    {
      notices := DeleteRows(rows);
      devices := Restatus(devices, rows, AwaitFlashDefault);
    }

    method EndReservations(client: Client, serials: seq<Serial>) returns (rows: set<Serial>, ghost notices: seq<Notice>)
      modifies this
      ensures Executes(old(View()), End(client, serials), Outcome(true, rows, notices), View())
    {
      rows := set d | d in reservations && reservations[d].client == client && d in serials;
      notices := Release(rows);
    }

    method EndAllReservations(client: Client) returns (rows: set<Serial>, ghost notices: seq<Notice>)
      modifies this
      ensures Executes(old(View()), EndAll(client), Outcome(true, rows, notices), View())
    {
      rows := set d | d in reservations && reservations[d].client == client;
      notices := Release(rows);
    }

    method HandleReservationTimeouts(now: int) returns (rows: set<Serial>, ghost notices: seq<Notice>)
      modifies this
      ensures Executes(old(View()), ReservationTimeouts(now), Outcome(true, rows, notices), View())
    {
      rows := set d | d in reservations && reservations[d].until < now;
      notices := Release(rows);
    }

    method GetReservationsEndingSoon(mins: int, now: int) returns (rows: set<Serial>)
      ensures Executes(View(), EndingSoon(mins, now), Outcome(true, rows, []), View())
    {
      rows := set d | d in reservations && reservations[d].until < now + mins;
    }

    /** `DELETE FROM reservations`: device statuses stay as they are. */
    method ClearReservations() returns (rows: set<Serial>, ghost notices: seq<Notice>)
      modifies this
      ensures Executes(old(View()), Call.ClearReservations, Outcome(true, rows, notices), View())
    {
      rows := reservations.Keys;
      notices := DeleteRows(rows);
    }

    method ClearDevices() returns (rows: set<Serial>, ghost notices: seq<Notice>)
      modifies this
      ensures Executes(old(View()), Call.ClearDevices, Outcome(true, rows, notices), View())
    {
      rows := devices.Keys;
      notices := DeleteDevices(rows);
    }

    /** Two statements: the devices first, then the workers. */
    method ClearWorkers() returns (ghost between: Db, ghost first: Outcome, ghost second: Outcome)
      modifies this
      ensures Executes(old(View()), Call.ClearDevices, first, between)
      ensures Executes(between, DeleteAllWorkers, second, View())
      ensures workers == map[] && devices == map[]
      ensures reservations == old(reservations) - old(devices).Keys
    {
      var rows, notices := ClearDevices();
      between, first := View(), Outcome(true, rows, notices);
      second := Outcome(true, DevicesOf(View(), workers.Keys), []);
      var more := DeleteWorkers(workers.Keys);
      second := second.(notices := more);
    }
  }

  lemma TakeNotice(rest: set<Serial>, reservations: map<Serial, Row>, d: Serial)
    requires d in rest && rest <= reservations.Keys
    ensures multiset(EndNotices(rest, reservations)) ==
            multiset{ReservationEnd(d, reservations[d].client)} + multiset(EndNotices(rest - {d}, reservations))
  {
    var n := ReservationEnd(d, reservations[d].client);
    assert EndNotices(rest, reservations) == EndNotices(rest - {d}, reservations) + {n};
    assert n !in EndNotices(rest - {d}, reservations);
  }

  /** `LIMIT amount`: any rows, as many as allowed and present. */
  method Limit(all: set<Serial>, amount: nat) returns (rows: set<Serial>)
    ensures rows <= all && |rows| == if amount < |all| then amount else |all|
  {
    rows := {};
    var rest := all;
    while rest != {} && |rows| < amount
      invariant rows <= all && rest == all - rows && |rows| <= amount
      invariant |rest| + |rows| == |all|
      decreases |rest|
    {
      var d :| d in rest;
      rows, rest := rows + {d}, rest - {d};
    }
  }
}
