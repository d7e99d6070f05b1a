/** Leases: the notices sent before a reservation ends (src/icefarm/control/Heartbeat.py), and why
    a client that answers them keeps its board. Times are in seconds; polls are ideal. */
module ReservationLease {
  import opened ReservationModel
  import opened ReservationRuns

  const POLL: int := 300
  const NOTIFY_AT: int := 1200

  /** The poll instants that report a row ending at `until`, up to that moment. `phase` is the
      instant of any one poll. */
  function Notices(until: int, phase: int): set<int> {
    set p | until - NOTIFY_AT < p <= until && IsPoll(p, phase)
  }

  predicate IsPoll(p: int, phase: int) {
    (p - phase) % POLL == 0
  }

  /** A reservation gets exactly four notices before it ends, the first one at least fifteen minutes
      before. */
  lemma FourNotices(until: int, phase: int) returns (first: int)
    ensures |Notices(until, phase)| == 4
    ensures first in Notices(until, phase) && first <= until - 900
  {
    var low := until - NOTIFY_AT + 1;
    first := low + (phase - low) % POLL;
    var a := first;
    assert (a - phase) % POLL == 0;
    forall p ensures p in Notices(until, phase) <==> p in {a, a + 300, a + 600, a + 900} {
      if p in Notices(until, phase) {
        assert (p - a) % POLL == 0;
      }
    }
    assert Notices(until, phase) == {a, a + 300, a + 600, a + 900};
  }

  /** These are exactly the polls at which a live row is reported, and for a reservation made at
      `start` they all come after it. */
  lemma NoticesAreReports(db: Db, d: Serial, phase: int, p: int, start: int)
    requires d in db.reservations && db.reservations[d].until == start + LEASE
    ensures p in Notices(db.reservations[d].until, phase) <==>
            d in RowsEndingSoon(db, NOTIFY_AT, p) && p <= db.reservations[d].until && IsPoll(p, phase)
    ensures p in Notices(db.reservations[d].until, phase) ==> start < p
  {
  }

  // ---------------------------------------------------------------- runs with a clock

  /** `times[i]` is when call `i` runs. The clock does not go back, and every procedure reads it. */
  ghost predicate Timed(run: Run, times: seq<int>) {
    && IsRun(run) && |times| == |run.calls|
    && (forall i | 0 <= i < |times| :: NowOf(run.calls[i], times[i]))
    && (forall i, j | 0 <= i < j < |times| :: times[i] <= times[j])
  }

  ghost predicate NowOf(call: Call, t: int) {
    match call
    case AddWorker(_, _, now) => now == t
    case HeartbeatWorker(_, now) => now == t
    case WorkerTimeouts(_, now) => now == t
    case MakeAny(_, _, _, now) => now == t
    case MakeSpecific(_, _, _, now) => now == t
    case Extend(_, _, now) => now == t
    case ExtendAll(_, now) => now == t
    case ReservationTimeouts(now) => now == t
    case EndingSoon(_, now) => now == t
    case _ => true
  }

  ghost predicate PollAt(run: Run, times: seq<int>, p: int, k: nat) {
    k < |times| && k < |run.calls| && times[k] == p && run.calls[k] == EndingSoon(NOTIFY_AT, p)
  }

  /** The heartbeat polls at every instant of its phase that the run passes. */
  ghost predicate Polls(run: Run, times: seq<int>, phase: int) {
    forall p, j | 0 <= j < |times| && IsPoll(p, phase) && times[0] <= p < times[j] ::
      exists k: nat :: PollAt(run, times, p, k)
  }

  ghost predicate Holds(db: Db, d: Serial, row: Row) {
    d in db.reservations && db.reservations[d] == row
  }

  /** Poll `k` reports `d`, then held as `row`. */
  ghost predicate Reports(run: Run, d: Serial, row: Row, k: nat) {
    && k < |run.states| && k < |run.calls| && k < |run.outcomes|
    && run.calls[k].EndingSoon? && Holds(run.states[k], d, row) && d in run.outcomes[k].rows
  }

  ghost predicate Extends(call: Call, c: Client, d: Serial) {
    || (call.Extend? && call.client == c && d in call.serials)
    || (call.ExtendAll? && call.client == c)
  }

  /** By call `e`, still in time, the client extends, or the lease is gone anyway. */
  ghost predicate SettledAt(run: Run, times: seq<int>, d: Serial, row: Row, e: nat) {
    && e < |times| && e < |run.calls| && e < |run.states|
    && times[e] <= row.until && (Extends(run.calls[e], row.client, d) || !Holds(run.states[e], d, row))
  }

  /** The notice at `p` goes unanswered: it reports `d`, and nothing settles the matter until the end
      of the lease has passed. */
  ghost predicate Missed(run: Run, times: seq<int>, d: Serial, row: Row, p: int) {
    exists k: nat, j: nat | k < j < |times| ::
      && PollAt(run, times, p, k) && Reports(run, d, row, k) && row.until < times[j]
      && forall e: nat | k < e < j :: !SettledAt(run, times, d, row, e)
  }

  ghost function MissedNotices(run: Run, times: seq<int>, d: Serial, row: Row, phase: int): set<int> {
    set p | p in Notices(row.until, phase) && Missed(run, times, d, row, p)
  }

  // ---------------------------------------------------------------- one lease

  /** State `i` is where this lease of `d` begins. */
  ghost predicate LeaseStart(run: Run, d: Serial, row: Row, i: nat)
    requires i < |run.states|
  {
    Holds(run.states[i], d, row) && (i == 0 || !Holds(run.states[i - 1], d, row))
  }

  lemma {:induction false} FindStart(run: Run, d: Serial, row: Row, j: nat) returns (i: nat)
    requires j < |run.states| && Holds(run.states[j], d, row)
    ensures i <= j && LeaseStart(run, d, row, i)
    ensures forall k | i <= k <= j :: Holds(run.states[k], d, row)
    decreases j
  {
    if j == 0 || !Holds(run.states[j - 1], d, row) {
      i := j;
    } else {
      i := FindStart(run, d, row, j - 1);
    }
  }

  /** However a lease comes about, it ends an hour after the call that made or extended it. */
  lemma NewRowsLastAnHour(db: Db, call: Call, o: Outcome, db': Db, d: Serial, row: Row, t: int)
    requires Executes(db, call, o, db') && NowOf(call, t) && Holds(db', d, row) && !Holds(db, d, row)
    ensures row.until == t + LEASE
  {
    hide Announces;
  }

  /** The lease that is live before call `j`: since which call, and that it ends an hour after it. */
  lemma LeaseSpan(run: Run, times: seq<int>, d: Serial, row: Row, j: nat) returns (i: nat)
    requires Timed(run, times) && j < |run.states| && Holds(run.states[j], d, row)
    ensures i < j && row.until == times[i] + LEASE
    ensures forall k | i < k <= j :: Holds(run.states[k], d, row)
  {
    hide Executes, NowOf;
    var start := FindStart(run, d, row, j);
    assert start > 0;
    i := start - 1;
    assert StepAt(run, i) && NowOf(run.calls[i], times[i]);
    NewRowsLastAnHour(run.states[i], run.calls[i], run.outcomes[i], run.states[start], d, row, times[i]);
  }

  /** An extension moves the end of the lease to an hour from now. */
  lemma ExtensionMovesEnd(db: Db, call: Call, o: Outcome, db': Db, d: Serial, row: Row, t: int)
    requires Executes(db, call, o, db') && Extends(call, row.client, d) && NowOf(call, t) && Holds(db, d, row)
    ensures Holds(db', d, Row(row.client, t + LEASE))
  {
    hide Announces;
  }

  /** While a lease made at call `i` stays as it is, nobody extends it later than it was made. */
  lemma NotExtended(run: Run, times: seq<int>, d: Serial, row: Row, i: nat, e: nat)
    requires Timed(run, times) && i < |times| && e < |times| && times[i] < times[e]
    requires row.until == times[i] + LEASE && Holds(run.states[e], d, row) && Holds(run.states[e + 1], d, row)
    ensures !Extends(run.calls[e], row.client, d)
  {
    hide Executes;
    if Extends(run.calls[e], row.client, d) {
      assert StepAt(run, e) && NowOf(run.calls[e], times[e]);
      ExtensionMovesEnd(run.states[e], run.calls[e], run.outcomes[e], run.states[e + 1], d, row, times[e]);
    }
  }

  lemma ExpiryIsLate(run: Run, times: seq<int>, d: Serial, row: Row, j: nat)
    requires Timed(run, times) && j < |times| && run.calls[j].ReservationTimeouts?
    requires Holds(run.states[j], d, row) && !Holds(run.states[j + 1], d, row)
    ensures row.until < times[j]
  {
    hide Announces;
    assert StepAt(run, j) && NowOf(run.calls[j], times[j]);
  }

  /** A notice of a lease that outlives it is polled in time and reports the board. */
  lemma NoticeReports(run: Run, times: seq<int>, d: Serial, row: Row, phase: int, i: nat, j: nat, p: int)
    returns (k: nat)
    requires Timed(run, times) && Polls(run, times, phase) && i < j < |times|
    requires row.until == times[i] + LEASE && forall k | i < k <= j :: Holds(run.states[k], d, row)
    requires p in Notices(row.until, phase) && row.until < times[j]
    ensures i < k < j && times[i] < times[k] && PollAt(run, times, p, k) && Reports(run, d, row, k)
  {
    hide Executes, NowOf;
    assert times[0] <= times[i] < p < times[j];
    k :| PollAt(run, times, p, k);
    assert k > i && k < j;
    assert Holds(run.states[k], d, row) && StepAt(run, k);
    NoticesAreReports(run.states[k], d, phase, p, times[i]);
    PollRows(run, k);
  }

  lemma PollRows(run: Run, k: nat)
    requires IsRun(run) && k < |run.calls| && run.calls[k].EndingSoon?
    ensures run.outcomes[k].rows == RowsEndingSoon(run.states[k], run.calls[k].mins, run.calls[k].now)
  {
    assert StepAt(run, k);
  }

  /** The expiry procedure removes a lease only after all four of its notices were sent, and every
      single one went unanswered to the end. */
  lemma LostMeansAllMissed(run: Run, times: seq<int>, d: Serial, row: Row, phase: int, j: nat)
    requires Timed(run, times) && Polls(run, times, phase)
    requires j < |run.calls| && run.calls[j].ReservationTimeouts?
    requires Holds(run.states[j], d, row) && !Holds(run.states[j + 1], d, row)
    ensures MissedNotices(run, times, d, row, phase) == Notices(row.until, phase)
    ensures |MissedNotices(run, times, d, row, phase)| == 4
  {
    hide Executes, NowOf, StepAt;
    ExpiryIsLate(run, times, d, row, j);
    var i := LeaseSpan(run, times, d, row, j);
    forall p | p in Notices(row.until, phase) ensures Missed(run, times, d, row, p) {
      var k := NoticeReports(run, times, d, row, phase, i, j, p);
      forall e: nat | k < e < j ensures !SettledAt(run, times, d, row, e) {
        NotExtended(run, times, d, row, i, e);
      }
    }
    var _ := FourNotices(row.until, phase);
  }

  // ---------------------------------------------------------------- clients that answer

  /** Of every lease of `d` the client leaves at most three notices unanswered. */
  ghost predicate Responsive(run: Run, times: seq<int>, d: Serial, c: Client, phase: int) {
    forall until: int :: |MissedNotices(run, times, d, Row(c, until), phase)| <= 3
  }

  /** Such a client never loses the board to the expiry procedure, however long the run. */
  lemma LeaseKept(run: Run, times: seq<int>, d: Serial, row: Row, phase: int, j: nat)
    requires Timed(run, times) && Polls(run, times, phase) && Responsive(run, times, d, row.client, phase)
    requires j < |run.calls| && run.calls[j].ReservationTimeouts? && Holds(run.states[j], d, row)
    ensures Holds(run.states[j + 1], d, row)
  {
    assert |MissedNotices(run, times, d, Row(row.client, row.until), phase)| <= 3;
    if !Holds(run.states[j + 1], d, row) {
      LostMeansAllMissed(run, times, d, row, phase, j);
    }
  }

  /** The client extends within fifteen minutes of every poll that reports the board as its own. */
  ghost predicate Prompt(run: Run, times: seq<int>, d: Serial, c: Client) {
    forall until: int, k: nat, j: nat |
      k < |times| && j < |times| && Reports(run, d, Row(c, until), k) && times[k] + 900 < times[j] ::
      exists e: nat :: k < e < |times| && e < |run.calls| && times[e] <= times[k] + 900 && Extends(run.calls[e], c, d)
  }

  /** That is prompt enough, so a reservation extender keeps its boards. */
  lemma PromptIsResponsive(run: Run, times: seq<int>, d: Serial, c: Client, phase: int)
    requires Timed(run, times) && Prompt(run, times, d, c)
    ensures Responsive(run, times, d, c, phase)
  {
    forall until: int ensures |MissedNotices(run, times, d, Row(c, until), phase)| <= 3 {
      var row := Row(c, until);
      var first := FourNotices(until, phase);
      if Missed(run, times, d, row, first) {
        FirstAnswered(run, times, d, c, until, first);
      }
      var others := Notices(until, phase) - {first};
      assert |others| == 3;
      SameSizeSubset(MissedNotices(run, times, d, row, phase), others);
    }
  }

  lemma FirstAnswered(run: Run, times: seq<int>, d: Serial, c: Client, until: int, first: int)
    requires Timed(run, times) && Prompt(run, times, d, c) && first <= until - 900
    ensures !Missed(run, times, d, Row(c, until), first)
  {
    var row := Row(c, until);
    forall k: nat, j: nat |
      k < j < |times| && PollAt(run, times, first, k) && Reports(run, d, row, k) && until < times[j]
      ensures exists e: nat :: k < e < j && SettledAt(run, times, d, row, e)
    {
      AnsweredInTime(run, times, d, c, until, k, j);
    }
  }

  lemma AnsweredInTime(run: Run, times: seq<int>, d: Serial, c: Client, until: int, k: nat, j: nat)
    requires Timed(run, times) && Prompt(run, times, d, c) && k < j < |times|
    requires Reports(run, d, Row(c, until), k) && times[k] + 900 <= until < times[j]
    ensures exists e: nat :: k < e < j && SettledAt(run, times, d, Row(c, until), e)
  {
    var e: nat :| k < e < |times| && times[e] <= times[k] + 900 && Extends(run.calls[e], c, d);
    assert e < j && SettledAt(run, times, d, Row(c, until), e);
  }
}
