/** The upload state of a worker's device: its bitstream queue, the run loop, result flushing and
    reboots (src/icefarm/worker/device/state/core/UploadState.py). */
module UploadModel {
  import opened Options
  import opened MappedQueuesModel

  type BatchId = string

  datatype Bitstream = Bitstream(location: string, name: string, batchId: BatchId)

  /** What is held for the client under a batch id. */
  datatype Entry = Entry(name: string, value: string)
  type Results = Queues<BatchId, Entry>

  /** The fields of one `UploadState` that its methods update. */
  datatype Local = Local(queue: seq<Bitstream>, shut: bool, current: Option<Bitstream>, results: Results)

  function AfterPut(l: Local, items: seq<Bitstream>): Local {
    if l.shut then l else l.(queue := l.queue + items)
  }

  /** `results.append(...)` for the current bitstream. */
  function AfterResult(l: Local, b: Bitstream, value: string): Local {
    l.(results := Appended(l.results, b.batchId, Entry(b.name, value)))
  }

  /** Whether `_flush` wants to send. */
  predicate WantsFlush(l: Local, flushAt: nat, due: bool) {
    !l.shut && (l.queue == [] || |l.queue| == flushAt || due)
  }

  function AfterFlush(l: Local, flushAt: nat, due: bool, sendOk: bool): Local {
    if WantsFlush(l, flushAt, due) && sendOk then l.(results := EmptyQueues()) else l
  }

  function AfterShutdown(l: Local): Local {
    l.(queue := [], shut := true)
  }

  /** What a reboot hands to the next state. */
  function HandedOver(queue: seq<Bitstream>, current: Option<Bitstream>): seq<Bitstream> {
    match current
    case None => queue
    case Some(b) => queue + [b]
  }

  /** The replacement for `queue.Queue`. */
  class Queue<E> {
    var contents: seq<E>
    var shuttingDown: bool

    constructor (contents: seq<E>)
      ensures this.contents == contents && !shuttingDown
    {
      this.contents, shuttingDown := contents, false;
    }

    /** False stands for `QueueShutDown`. */
    method Put(items: seq<E>) returns (ok: bool)
      modifies this`contents
      ensures ok <==> !shuttingDown
      ensures contents == if ok then old(contents) + items else old(contents)
    {
      if shuttingDown {
        return false;
      }
      contents := contents + items;
      ok := true;
    }

    /** Once it no longer has to wait: the oldest item, or `None` for `QueueShutDown`. */
    method Pop() returns (item: Option<E>)
      requires contents != [] || shuttingDown
      modifies this`contents
      ensures shuttingDown ==> item == None && contents == old(contents)
      ensures !shuttingDown ==> item == Some(old(contents)[0]) && contents == old(contents)[1..]
    {
      if shuttingDown {
        return None;
      }
      item := Some(contents[0]);
      contents := contents[1..];
    }

    method Shutdown() returns (items: seq<E>)
      modifies this
      ensures items == old(contents) && contents == [] && shuttingDown
    {
      items := contents;
      contents := [];
      shuttingDown := true;
    }

    /** `None` stands for `QueueShutDown`. */
    method Len() returns (n: Option<nat>)
      ensures n == if shuttingDown then None else Some(|contents|)
    {
      n := if shuttingDown then None else Some(|contents|);
    }
  }

  class UploadState {
    const flushAt: nat
    const queue: Queue<Bitstream>
    var current: Option<Bitstream>
    var results: MappedQueues<BatchId, Entry>

    ghost function View(): Local
      reads this, queue, results
    {
      Local(queue.contents, queue.shuttingDown, current, results.View())
    }

    ghost predicate Valid()
      reads this, results
    {
      results.Valid()
    }

    /** A fresh state, or the one a reboot builds from what was handed over. */
    constructor (bitstreams: seq<Bitstream>, results: MappedQueues<BatchId, Entry>, flushAt: nat)
      requires results.Valid()
      ensures Valid() && fresh(queue) && this.results == results && this.flushAt == flushAt
      ensures View() == Local(bitstreams, false, None, results.View())
    {
      this.flushAt, this.results, this.current := flushAt, results, None;
      queue := new Queue(bitstreams);
    }

    /** The `evaluate` request; bitstreams arriving after shutdown are dropped. */
    method Enqueue(items: seq<Bitstream>) returns (ok: bool)
      requires Valid()
      modifies queue`contents
      ensures Valid() && View() == AfterPut(old(View()), items)
      ensures ok <==> !queue.shuttingDown
      ensures queue.contents == if ok then old(queue.contents) + items else old(queue.contents)
    {
      ok := queue.Put(items);
    }

    /** Top of the loop: false when the loop must end. */
    method TakeNext() returns (more: bool)
      requires Valid() && (queue.contents != [] || queue.shuttingDown)
      modifies this`current, queue`contents
      ensures Valid() && (more <==> !queue.shuttingDown)
      ensures View() == if !more then old(View())
                        else old(View()).(queue := old(queue.contents)[1..],
                                          current := Some(old(queue.contents)[0]))
    {
      var item := queue.Pop();
      if item.None? {
        return false;
      }
      current := item;
      more := true;
    }

    method Record(value: string)
      requires Valid() && current.Some?
      modifies results
      ensures Valid() && View() == AfterResult(old(View()), current.value, value)
      ensures var id, held := current.value.batchId, old(results.state);
              results.state == held[id := (if id in held then held[id] else []) + [Entry(current.value.name, value)]]
    {
      results.Append(current.value.batchId, Entry(current.value.name, value));
    }

    method Clear()
      requires Valid()
      modifies this`current
      ensures Valid() && View() == old(View()).(current := None)
    {
      current := None;
    }

    /** `_flush`; `sendOk` is what the event sender answers, `due` whether the interval has passed. */
    method Flush(due: bool, sendOk: bool) returns (flushed: bool)
      requires Valid()
      modifies this`results
      ensures Valid() && View() == AfterFlush(old(View()), flushAt, due, sendOk)
      ensures flushed <==> WantsFlush(old(View()), flushAt, due) && sendOk
      ensures flushed <==>
                && !queue.shuttingDown && sendOk
                && (|queue.contents| == 0 || |queue.contents| == flushAt || due)
      ensures if flushed then results.state == map[] else results == old(results)
    {
      var n := queue.Len();
      if n.None? {
        return false;
      }
      if n.value != 0 && n.value != flushAt && !due {
        return false;
      }
      if !sendOk {
        return false;
      }
      results := new MappedQueues<BatchId, Entry>();
      flushed := true;
    }

    method Reboot() returns (bitstreams: seq<Bitstream>)
      requires Valid()
      modifies queue
      ensures Valid() && View() == AfterShutdown(old(View()))
      ensures bitstreams == HandedOver(old(queue.contents), current)
      ensures bitstreams == old(queue.contents) + (if current.Some? then [current.value] else [])
      ensures queue.contents == [] && queue.shuttingDown
    {
      bitstreams := queue.Shutdown();
      if current.Some? {
        bitstreams := bitstreams + [current.value];
      }
    }
  }
}

/** Every run of an upload pipeline, over any number of reboots. */
module UploadRuns {
  import opened Options
  import opened MappedQueuesModel
  import opened UploadModel

  /** Where the run thread stands. Between popping a bitstream and storing it in
      `current_bitstream`, and between recording its result and clearing that field, another
      thread may look. `Rebooting`: the run thread reboots by itself; it has closed the queue and knows
      what to hand over, but does not have the device's lock yet. */
  datatype Phase =
    | AtLoop
    | Taken(b: Bitstream)
    | Working(b: Bitstream)
    | Recorded(b: Bitstream)
    | Cleared
    | Exited
    | Rebooting(b: Bitstream, bitstreams: seq<Bitstream>)

  /** What the holder of the device's lock does: `Shut` once an outside reboot has closed the queue,
      `Ready` once a reboot that has the lock knows what to hand over. */
  datatype Reboot = NoReboot | Shut(bitstreams: seq<Bitstream>) | Ready(bitstreams: seq<Bitstream>)

  datatype System = System(
    l: Local,
    phase: Phase,
    reboot: Reboot,
    accepted: seq<Bitstream>,
    completed: seq<(Bitstream, string)>,
    sent: seq<Results>,
    external: nat,
    sendFailed: bool)

  datatype Event =
    | Enqueue(items: seq<Bitstream>)
    | Pop
    | Assign
    | Record(value: string)
    | Clear
    | Flush(due: bool, sendOk: bool)
    | SeeShutdown
    | UploadFails
    | Switch
    | ExternalReboot
    | Capture
    | Install

  ghost predicate Step(flushAt: nat, s: System, ev: Event, s': System) {
    match ev
    case Enqueue(items) =>
      s' == s.(l := AfterPut(s.l, items), accepted := if s.l.shut then s.accepted else s.accepted + items)
    case Pop =>
      && s.phase.AtLoop? && !s.l.shut && s.l.queue != []
      && s' == s.(l := s.l.(queue := s.l.queue[1..]), phase := Taken(s.l.queue[0]))
    case Assign =>
      && s.phase.Taken?
      && s' == s.(l := s.l.(current := Some(s.phase.b)), phase := Working(s.phase.b))
    case Record(value) =>
      && s.phase.Working?
      && s' == s.(l := AfterResult(s.l, s.phase.b, value), phase := Recorded(s.phase.b),
                  completed := s.completed + [(s.phase.b, value)])
    case Clear =>
      s.phase.Recorded? && s' == s.(l := s.l.(current := None), phase := Cleared)
    case Flush(due, sendOk) =>
      && s.phase.Cleared?
      && var wants := WantsFlush(s.l, flushAt, due);
         s' == s.(l := AfterFlush(s.l, flushAt, due, sendOk), phase := AtLoop,
                  sent := if wants && sendOk then s.sent + [s.l.results] else s.sent,
                  sendFailed := s.sendFailed || (wants && !sendOk))
    case SeeShutdown =>
      s.phase.AtLoop? && s.l.shut && s' == s.(phase := Exited)
    // writing or reading failed: the run thread begins to reboot
    case UploadFails =>
      && s.phase.Working?
      && s' == s.(l := AfterShutdown(s.l), phase := Rebooting(s.phase.b, HandedOver(s.l.queue, s.l.current)))
    // it gets the device's lock, switches and returns
    case Switch =>
      && s.phase.Rebooting? && s.reboot.NoReboot?
      && s' == s.(reboot := Ready(s.phase.bitstreams), phase := Exited)
    // another thread takes the lock and reboots: it closes the queue, then looks at the current
    // bitstream, and holds the lock until the run thread has ended
    case ExternalReboot =>
      && s.reboot.NoReboot? && !s.phase.Exited?
      && s' == s.(l := AfterShutdown(s.l), reboot := Shut(s.l.queue), external := s.external + 1)
    case Capture =>
      && s.reboot.Shut?
      && s' == s.(reboot := Ready(HandedOver(s.reboot.bitstreams, s.l.current)))
    // the old thread is joined; after the flash the next state takes over
    case Install =>
      && s.reboot.Ready? && s.phase.Exited?
      && s' == s.(l := Local(s.reboot.bitstreams, false, None, s.l.results), phase := AtLoop, reboot := NoReboot)
  }

  ghost predicate Init(s: System) {
    s == System(Local([], false, None, EmptyQueues()), AtLoop, NoReboot, [], [], [], 0, false)
  }

  // ---------------------------------------------------------------- conservation

  ghost function InHand(p: Phase): seq<Bitstream> {
    match p
    case Taken(b) => [b]
    case Working(b) => [b]
    case Rebooting(_, bitstreams) => bitstreams
    case _ => []
  }

  ghost function Waiting(r: Reboot): seq<Bitstream> {
    if r.NoReboot? then [] else r.bitstreams
  }

  ghost function Finished(completed: seq<(Bitstream, string)>): seq<Bitstream> {
    seq(|completed|, i requires 0 <= i < |completed| => completed[i].0)
  }

  /** Everything that was accepted, wherever it is now. */
  ghost function Everywhere(s: System): multiset<Bitstream> {
    multiset(s.l.queue) + multiset(Waiting(s.reboot)) + multiset(InHand(s.phase)) + multiset(Finished(s.completed))
  }

  /** The fields agree with where the run thread and a reboot stand. */
  ghost predicate Shaped(s: System) {
    && (s.l.shut <==> !s.reboot.NoReboot? || s.phase.Rebooting?)
    && (s.l.shut ==> s.l.queue == [])
    && (s.phase.Working? || s.phase.Recorded? || s.phase.Rebooting? ==> s.l.current == Some(s.phase.b))
    && (s.phase.Rebooting? ==> s.phase.bitstreams != [])
    && (s.phase.AtLoop? || s.phase.Taken? || s.phase.Cleared? ==> s.l.current == None)
    && (s.phase.Exited? ==> !s.reboot.NoReboot?)
    && (s.phase.Exited? && s.reboot.Shut? ==> s.l.current == None)
    && WellFormed(s.l.results)
  }

  /** Nothing accepted is lost, and copies exist only of what an external reboot caught. */
  ghost predicate NothingLost(s: System) {
    && multiset(s.accepted) <= Everywhere(s)
    && |Everywhere(s)| <= |s.accepted| + s.external
    && (s.reboot.Shut? ==> |Everywhere(s)| < |s.accepted| + s.external)
  }

  lemma StepKeepsShape(flushAt: nat, s: System, ev: Event, s': System)
    requires Shaped(s) && Step(flushAt, s, ev, s')
    ensures Shaped(s')
  {
    if ev.Record? {
      AppendedContents(s.l.results, s.phase.b.batchId, Entry(s.phase.b.name, ev.value));
    }
  }

  lemma PopMoves(flushAt: nat, s: System, s': System)
    requires Step(flushAt, s, Pop, s')
    ensures Everywhere(s') == Everywhere(s)
  {
    assert s.l.queue == [s.l.queue[0]] + s.l.queue[1..];
    assert multiset(s.l.queue) == multiset([s.l.queue[0]]) + multiset(s.l.queue[1..]);
  }

  lemma RecordMoves(flushAt: nat, s: System, value: string, s': System)
    requires Step(flushAt, s, Record(value), s')
    ensures Everywhere(s') == Everywhere(s)
  {
    var b, done := s.phase.b, Finished(s.completed);
    assert Finished(s'.completed) == done + [b];
    assert s'.l.queue == s.l.queue && InHand(s.phase) == [b] && InHand(s'.phase) == [];
    hide Finished, AfterResult;
    assert multiset(done + [b]) == multiset(done) + multiset{b};
  }

  lemma UploadFailsMoves(flushAt: nat, s: System, s': System)
    requires Shaped(s) && Step(flushAt, s, UploadFails, s')
    ensures Everywhere(s') == Everywhere(s)
  {
    var b, queue := s.phase.b, s.l.queue;
    assert InHand(s.phase) == [b] && InHand(s'.phase) == queue + [b];
    assert s'.l.queue == [] && s'.reboot == s.reboot && s'.completed == s.completed;
    hide Shaped, Step, Waiting, InHand, Finished;
    HandOverBalances(queue, b, multiset(Waiting(s.reboot)), multiset(Finished(s.completed)));
  }

  lemma HandOverBalances(queue: seq<Bitstream>, b: Bitstream, waiting: multiset<Bitstream>, done: multiset<Bitstream>)
    ensures multiset([]) + waiting + multiset(queue + [b]) + done == multiset(queue) + waiting + multiset([b]) + done
  {
  }

  lemma SwitchMoves(flushAt: nat, s: System, s': System)
    requires Step(flushAt, s, Switch, s')
    ensures Everywhere(s') == Everywhere(s)
  {
    var bitstreams := s.phase.bitstreams;
    assert InHand(s.phase) == bitstreams == Waiting(s'.reboot);
    assert InHand(s'.phase) == [] == Waiting(s.reboot);
    assert s'.l == s.l && s'.completed == s.completed;
    hide Step, Finished, InHand, Waiting;
    assert Everywhere(s) == multiset(s.l.queue) + multiset([]) + multiset(bitstreams) + multiset(Finished(s.completed));
  }

  lemma CaptureMoves(flushAt: nat, s: System, s': System)
    requires Step(flushAt, s, Capture, s')
    ensures Everywhere(s') == Everywhere(s) + multiset(HandedOver([], s.l.current))
  {
    assert Waiting(s'.reboot) == Waiting(s.reboot) + HandedOver([], s.l.current);
  }

  lemma CaptureAdds(flushAt: nat, s: System, s': System)
    requires Step(flushAt, s, Capture, s')
    ensures Everywhere(s') == Everywhere(s) + multiset(Adds(s, Capture))
  {
    CaptureMoves(flushAt, s, s');
  }

  lemma ExternalRebootMoves(flushAt: nat, s: System, s': System)
    requires Step(flushAt, s, ExternalReboot, s')
    ensures Everywhere(s') == Everywhere(s)
  {
  }

  lemma InstallMoves(flushAt: nat, s: System, s': System)
    requires Shaped(s) && Step(flushAt, s, Install, s')
    ensures Everywhere(s') == Everywhere(s)
  {
  }

  /** What the step adds to everything there is. */
  ghost function Adds(s: System, ev: Event): seq<Bitstream> {
    match ev
    case Enqueue(items) => if s.l.shut then [] else items
    case Capture => HandedOver([], s.l.current)
    case _ => []
  }

  lemma EnqueueMoves(flushAt: nat, s: System, items: seq<Bitstream>, s': System)
    requires Step(flushAt, s, Enqueue(items), s')
    ensures Everywhere(s') == Everywhere(s) + multiset(Adds(s, Enqueue(items)))
    ensures s'.accepted == s.accepted + Adds(s, Enqueue(items))
  {
  }

  lemma StaysPut(flushAt: nat, s: System, ev: Event, s': System)
    requires Step(flushAt, s, ev, s') && (ev.Assign? || ev.Clear? || ev.Flush? || ev.SeeShutdown?)
    ensures Everywhere(s') == Everywhere(s)
  {
    assert s'.l.queue == s.l.queue && s'.reboot == s.reboot && s'.completed == s.completed;
    assert InHand(s'.phase) == InHand(s.phase);
    hide Step, InHand, Finished;
  }

  lemma OnlyEnqueueAccepts(flushAt: nat, s: System, ev: Event, s': System)
    requires Step(flushAt, s, ev, s')
    ensures s'.accepted == s.accepted + (if ev.Enqueue? then Adds(s, ev) else [])
  {
  }

  /** Only accepting, and an external reboot catching a current bitstream, add anything. */
  lemma StepMoves(flushAt: nat, s: System, ev: Event, s': System)
    requires Shaped(s) && Step(flushAt, s, ev, s')
    ensures Everywhere(s') == Everywhere(s) + multiset(Adds(s, ev))
    ensures s'.accepted == s.accepted + (if ev.Enqueue? then Adds(s, ev) else [])
  {
    OnlyEnqueueAccepts(flushAt, s, ev, s');
    assert !ev.Enqueue? && !ev.Capture? ==> Adds(s, ev) == [];
    hide Everywhere, Shaped, Step, Adds;
    assert Everywhere(s) + multiset{} == Everywhere(s);
    match ev {
      case Enqueue(items) => EnqueueMoves(flushAt, s, items, s');
      case Pop => PopMoves(flushAt, s, s');
      case Record(value) => RecordMoves(flushAt, s, value, s');
      case UploadFails => UploadFailsMoves(flushAt, s, s');
      case Switch => SwitchMoves(flushAt, s, s');
      case Capture => CaptureAdds(flushAt, s, s');
      case ExternalReboot => ExternalRebootMoves(flushAt, s, s');
      case Install => InstallMoves(flushAt, s, s');
      case Assign => StaysPut(flushAt, s, ev, s');
      case Clear => StaysPut(flushAt, s, ev, s');
      case Flush(_, _) => StaysPut(flushAt, s, ev, s');
      case SeeShutdown => StaysPut(flushAt, s, ev, s');
    }
  }

  lemma StepLosesNothing(flushAt: nat, s: System, ev: Event, s': System)
    requires Shaped(s) && NothingLost(s) && Step(flushAt, s, ev, s')
    ensures NothingLost(s')
  {
    StepMoves(flushAt, s, ev, s');
    StepCounts(flushAt, s, ev, s');
    hide Everywhere, Step, Shaped;
    var added := if ev.Enqueue? then Adds(s, ev) else [];
    assert |s'.accepted| == |s.accepted| + |added|;
    GrowTogether(s.accepted, added, Everywhere(s), multiset(Adds(s, ev)));
  }

  lemma GrowTogether(accepted: seq<Bitstream>, added: seq<Bitstream>, all: multiset<Bitstream>,
                     more: multiset<Bitstream>)
    requires multiset(accepted) <= all && multiset(added) <= more
    ensures multiset(accepted + added) <= all + more && |all + more| == |all| + |more|
  {
  }

  /** How a step changes the number of external reboots and how far the current one is. */
  lemma StepCounts(flushAt: nat, s: System, ev: Event, s': System)
    requires Step(flushAt, s, ev, s')
    ensures s'.external == s.external + (if ev.ExternalReboot? then 1 else 0)
    ensures s'.reboot.Shut? ==> ev.ExternalReboot? || (s.reboot.Shut? && !ev.Capture?)
    ensures ev.Capture? ==> s.reboot.Shut?
    ensures !ev.Enqueue? && !ev.Capture? ==> Adds(s, ev) == []
    ensures ev.Capture? ==> |Adds(s, ev)| <= 1
  {
  }

  // ---------------------------------------------------------------- order of results

  /** The results of batch `id` in completion order. */
  ghost function CompletedFor(completed: seq<(Bitstream, string)>, id: BatchId): seq<Entry> {
    if completed == [] then []
    else
      var last := completed[|completed| - 1];
      CompletedFor(completed[..|completed| - 1], id)
      + (if last.0.batchId == id then [Entry(last.0.name, last.1)] else [])
  }

  /** The results of batch `id` in the order they were sent. */
  ghost function SentFor(sent: seq<Results>, id: BatchId): seq<Entry> {
    if sent == [] then [] else SentFor(sent[..|sent| - 1], id) + Get(sent[|sent| - 1], id)
  }

  /** Per batch, what was sent followed by what is held is exactly the completion order. */
  ghost predicate InOrder(s: System) {
    forall id :: SentFor(s.sent, id) + Get(s.l.results, id) == CompletedFor(s.completed, id)
  }

  lemma StepKeepsOrder(flushAt: nat, s: System, ev: Event, s': System)
    requires InOrder(s) && Step(flushAt, s, ev, s')
    ensures InOrder(s')
  {
    forall id ensures SentFor(s'.sent, id) + Get(s'.l.results, id) == CompletedFor(s'.completed, id) {
      assert SentFor(s.sent, id) + Get(s.l.results, id) == CompletedFor(s.completed, id);
      if ev.Record? {
        RecordKeepsOrder(flushAt, s, ev.value, s', id);
      } else if ev.Flush? && s'.sent != s.sent {
        assert s'.sent[..|s.sent|] == s.sent;
      }
    }
  }

  lemma RecordKeepsOrder(flushAt: nat, s: System, value: string, s': System, id: BatchId)
    requires SentFor(s.sent, id) + Get(s.l.results, id) == CompletedFor(s.completed, id)
    requires Step(flushAt, s, Record(value), s')
    ensures SentFor(s'.sent, id) + Get(s'.l.results, id) == CompletedFor(s'.completed, id)
  {
    assert s'.completed[..|s.completed|] == s.completed;
    var more := if s.phase.b.batchId == id then [Entry(s.phase.b.name, value)] else [];
    assert CompletedFor(s'.completed, id) == CompletedFor(s.completed, id) + more;
    HeldAfterRecord(s.l, s.phase.b, value, id);
    MoreAtEnd(SentFor(s.sent, id), Get(s.l.results, id), more);
    assert s'.sent == s.sent && s'.l == AfterResult(s.l, s.phase.b, value);
    hide *;
  }

  lemma HeldAfterRecord(l: Local, b: Bitstream, value: string, id: BatchId)
    ensures Get(AfterResult(l, b, value).results, id) ==
            Get(l.results, id) + (if b.batchId == id then [Entry(b.name, value)] else [])
  {
  }

  lemma MoreAtEnd(x: seq<Entry>, y: seq<Entry>, more: seq<Entry>)
    ensures x + (y + more) == x + y + more
  {
  }

  // ---------------------------------------------------------------- never blocking on held results

  /** While every send succeeds and no other thread reboots, results are held only if more
      bitstreams are waiting. */
  ghost predicate HeldOnlyWithWork(s: System) {
    s.external == 0 && !s.sendFailed ==>
      && !s.reboot.Shut?
      && (s.reboot.Ready? ==> s.reboot.bitstreams != [] && s.phase.Exited?)
      && (s.phase.AtLoop? && !s.l.shut && s.l.queue == [] ==> s.l.results == EmptyQueues())
  }

  lemma StepKeepsWork(flushAt: nat, s: System, ev: Event, s': System)
    requires Shaped(s) && HeldOnlyWithWork(s) && Step(flushAt, s, ev, s')
    ensures HeldOnlyWithWork(s')
  {
  }

  // ---------------------------------------------------------------- runs

  datatype Run = Run(states: seq<System>, events: seq<Event>)

  ghost predicate StepAt(flushAt: nat, run: Run, i: nat)
    requires i < |run.events| && i + 1 < |run.states|
  {
    Step(flushAt, run.states[i], run.events[i], run.states[i + 1])
  }

  ghost predicate IsRun(flushAt: nat, run: Run) {
    && |run.states| == |run.events| + 1 && Init(run.states[0])
    && forall i | 0 <= i < |run.events| :: StepAt(flushAt, run, i)
  }

  lemma {:induction false} RunKeeps(flushAt: nat, run: Run, n: nat)
    requires IsRun(flushAt, run) && n < |run.states|
    ensures Shaped(run.states[n]) && NothingLost(run.states[n]) && InOrder(run.states[n])
    ensures HeldOnlyWithWork(run.states[n])
  {
    if n > 0 {
      hide Shaped, NothingLost, InOrder, HeldOnlyWithWork, Step;
      RunKeeps(flushAt, run, n - 1);
      assert StepAt(flushAt, run, n - 1);
      var s, ev, s' := run.states[n - 1], run.events[n - 1], run.states[n];
      StepKeepsShape(flushAt, s, ev, s');
      StepLosesNothing(flushAt, s, ev, s');
      StepKeepsOrder(flushAt, s, ev, s');
      StepKeepsWork(flushAt, s, ev, s');
    }
  }

  /** At least once, always: every accepted bitstream is waiting, in hand or completed, and there are
      at most as many surplus copies as external reboots. */
  lemma AtLeastOnce(flushAt: nat, run: Run, n: nat)
    requires IsRun(flushAt, run) && n < |run.states|
    ensures multiset(run.states[n].accepted) <= Everywhere(run.states[n])
    ensures |Everywhere(run.states[n])| <= |run.states[n].accepted| + run.states[n].external
  {
    RunKeeps(flushAt, run, n);
  }

  /** Step `i` is an outside reboot that finds a current bitstream. */
  ghost predicate CatchesAt(run: Run, i: nat)
    requires i < |run.events| && i < |run.states|
  {
    run.events[i].Capture? && run.states[i].l.current.Some?
  }

  /** The bitstreams caught in the first `n` steps. */
  ghost function Caught(run: Run, n: nat): seq<Bitstream>
    requires n <= |run.events| && n <= |run.states|
  {
    if n == 0 then []
    else Caught(run, n - 1) + (if CatchesAt(run, n - 1) then [run.states[n - 1].l.current.value] else [])
  }

  lemma AddedOnEitherSide(accepted: seq<Bitstream>, caught: seq<Bitstream>, more: seq<Bitstream>)
    ensures multiset(accepted) + multiset(caught) + multiset(more) == multiset(accepted + more) + multiset(caught)
    ensures multiset(accepted) + multiset(caught) + multiset(more) == multiset(accepted) + multiset(caught + more)
  {
  }

  /** What step `i` adds is newly accepted, or caught. */
  lemma AddsAcceptedOrCaught(flushAt: nat, run: Run, i: nat)
    requires IsRun(flushAt, run) && i < |run.events|
    ensures var more := Adds(run.states[i], run.events[i]);
            && Everywhere(run.states[i + 1]) == Everywhere(run.states[i]) + multiset(more)
            && run.states[i + 1].accepted == run.states[i].accepted + (if run.events[i].Capture? then [] else more)
            && Caught(run, i + 1) == Caught(run, i) + (if run.events[i].Capture? then more else [])
  {
    RunKeeps(flushAt, run, i);
    assert StepAt(flushAt, run, i);
    StepMoves(flushAt, run.states[i], run.events[i], run.states[i + 1]);
    StepCounts(flushAt, run.states[i], run.events[i], run.states[i + 1]);
    CaughtIsAdded(run, i);
    hide Everywhere, Shaped, NothingLost, InOrder, HeldOnlyWithWork, Step, StepAt, Caught, Adds, Init;
  }

  lemma {:induction false} CaughtIsAdded(run: Run, i: nat)
    requires i < |run.events| && i < |run.states|
    ensures Caught(run, i + 1) ==
            Caught(run, i) + (if run.events[i].Capture? then Adds(run.states[i], run.events[i]) else [])
  {
    CatchIsAdded(run, i);
    hide CatchesAt, Adds;
  }

  lemma CatchIsAdded(run: Run, i: nat)
    requires i < |run.events| && i < |run.states|
    ensures CatchesAt(run, i) ==> run.states[i].l.current.Some?
    ensures (if CatchesAt(run, i) then [run.states[i].l.current.value] else []) ==
            (if run.events[i].Capture? then Adds(run.states[i], run.events[i]) else [])
  {
    var current := run.states[i].l.current;
    assert HandedOver([], current) == if current.Some? then [current.value] else [];
  }

  ghost predicate CopiesExplained(run: Run, n: nat)
    requires n < |run.states| && n <= |run.events|
  {
    Everywhere(run.states[n]) == multiset(run.states[n].accepted) + multiset(Caught(run, n))
  }

  lemma StepCopies(flushAt: nat, run: Run, i: nat)
    requires IsRun(flushAt, run) && i < |run.events| && CopiesExplained(run, i)
    ensures CopiesExplained(run, i + 1)
  {
    AddsAcceptedOrCaught(flushAt, run, i);
    AddedOnEitherSide(run.states[i].accepted, Caught(run, i), Adds(run.states[i], run.events[i]));
    hide Everywhere, Caught, Adds, StepAt, Init;
  }

  lemma NoCopiesYet(flushAt: nat, run: Run)
    requires IsRun(flushAt, run)
    ensures CopiesExplained(run, 0)
  {
  }

  lemma {:induction false} CopiesFrom(flushAt: nat, run: Run, n: nat)
    requires IsRun(flushAt, run) && n < |run.states|
    ensures CopiesExplained(run, n)
    decreases n
  {
    hide CopiesExplained, StepAt, Init;
    if n == 0 {
      NoCopiesYet(flushAt, run);
    } else {
      CopiesFrom(flushAt, run, n - 1);
      StepCopies(flushAt, run, n - 1);
    }
  }

  /** The exact account: everything there is are the accepted bitstreams and a second copy of each
      one that an outside reboot caught. */
  lemma CopiesAreCaught(flushAt: nat, run: Run, n: nat)
    requires IsRun(flushAt, run) && n < |run.states|
    ensures Everywhere(run.states[n]) == multiset(run.states[n].accepted) + multiset(Caught(run, n))
  {
    CopiesFrom(flushAt, run, n);
  }

  lemma {:induction false} CaughtNothing(run: Run, n: nat)
    requires n <= |run.events| && n <= |run.states|
    ensures Caught(run, n) == [] <==> forall i | 0 <= i < n :: !CatchesAt(run, i)
  {
    if n > 0 {
      CaughtNothing(run, n - 1);
    }
  }

  lemma {:induction false} CaughtFromOutside(flushAt: nat, run: Run, n: nat)
    requires IsRun(flushAt, run) && n < |run.states|
    ensures run.states[n].external == 0 ==> !run.states[n].reboot.Shut? && Caught(run, n) == []
    decreases n
  {
    if n > 0 {
      hide Step;
      CaughtFromOutside(flushAt, run, n - 1);
      assert StepAt(flushAt, run, n - 1);
      StepCounts(flushAt, run.states[n - 1], run.events[n - 1], run.states[n]);
    }
  }

  /** In particular as long as only the run thread reboots. */
  lemma ExactlyOnceWithoutExternal(flushAt: nat, run: Run, n: nat)
    requires IsRun(flushAt, run) && n < |run.states| && run.states[n].external == 0
    ensures Everywhere(run.states[n]) == multiset(run.states[n].accepted)
  {
    CaughtFromOutside(flushAt, run, n);
    CopiesAreCaught(flushAt, run, n);
    hide Everywhere;
  }

  /** Exactly once, precisely as long as no outside reboot finds a current bitstream; and the surplus
      is the number of those that do. */
  lemma ExactlyOnceIff(flushAt: nat, run: Run, n: nat)
    requires IsRun(flushAt, run) && n < |run.states|
    ensures |Everywhere(run.states[n])| == |run.states[n].accepted| + |Caught(run, n)|
    ensures Everywhere(run.states[n]) == multiset(run.states[n].accepted) <==>
            forall i | 0 <= i < n :: !CatchesAt(run, i)
  {
    CopiesAreCaught(flushAt, run, n);
    CaughtNothing(run, n);
    hide Everywhere, Caught, CatchesAt;
    var accepted, caught := run.states[n].accepted, Caught(run, n);
    assert |multiset(accepted) + multiset(caught)| == |accepted| + |caught|;
  }

  /** Completed, in hand and queued, put together, are what was accepted, in that order. */
  ghost predicate FirstInFirstOut(s: System) {
    && s.reboot.NoReboot? && !s.phase.Rebooting?
    && Finished(s.completed) + InHand(s.phase) + s.l.queue == s.accepted
  }

  lemma StepKeepsFifo(flushAt: nat, s: System, ev: Event, s': System)
    requires Shaped(s) && FirstInFirstOut(s) && Step(flushAt, s, ev, s') && !ev.UploadFails? && !ev.ExternalReboot?
    ensures FirstInFirstOut(s')
  {
    hide Finished, AfterResult;
    if ev.Pop? {
      PopShifts(Finished(s.completed), s.l.queue);
    } else if ev.Record? {
      RecordKeepsFifo(flushAt, s, ev.value, s');
    } else if ev.Enqueue? {
      EnqueueKeepsFifo(flushAt, s, ev.items, s');
    }
  }

  lemma RecordKeepsFifo(flushAt: nat, s: System, value: string, s': System)
    requires FirstInFirstOut(s) && Step(flushAt, s, Record(value), s')
    ensures FirstInFirstOut(s')
  {
    assert Finished(s'.completed) == Finished(s.completed) + [s.phase.b];
    assert s'.l.queue == s.l.queue && InHand(s'.phase) == [];
    hide Finished, AfterResult;
    var done := Finished(s.completed);
    assert done + [s.phase.b] + [] == done + [s.phase.b];
  }

  lemma EnqueueKeepsFifo(flushAt: nat, s: System, items: seq<Bitstream>, s': System)
    requires Shaped(s) && FirstInFirstOut(s) && Step(flushAt, s, Enqueue(items), s')
    ensures FirstInFirstOut(s')
  {
    hide Finished, InHand;
    var done := Finished(s.completed) + InHand(s.phase);
    assert done + (s.l.queue + items) == done + s.l.queue + items;
  }

  lemma PopShifts(done: seq<Bitstream>, queue: seq<Bitstream>)
    requires queue != []
    ensures done + [queue[0]] + queue[1..] == done + [] + queue
  {
  }

  /** As long as nothing reboots, bitstreams complete in the order in which they were accepted. */
  lemma {:induction false} CompletedInOrder(flushAt: nat, run: Run, n: nat)
    requires IsRun(flushAt, run) && n < |run.states|
    requires forall i | 0 <= i < n :: !run.events[i].UploadFails? && !run.events[i].ExternalReboot?
    ensures FirstInFirstOut(run.states[n])
    ensures Finished(run.states[n].completed) <= run.states[n].accepted
    decreases n
  {
    if n > 0 {
      hide FirstInFirstOut, StepAt, Init;
      CompletedInOrder(flushAt, run, n - 1);
      FifoAfter(flushAt, run, n - 1);
    }
    assert FirstInFirstOut(run.states[n]);
    FifoMeansPrefix(run.states[n]);
  }

  lemma FifoAfter(flushAt: nat, run: Run, i: nat)
    requires IsRun(flushAt, run) && i < |run.events| && FirstInFirstOut(run.states[i])
    requires !run.events[i].UploadFails? && !run.events[i].ExternalReboot?
    ensures FirstInFirstOut(run.states[i + 1])
  {
    RunKeeps(flushAt, run, i);
    assert StepAt(flushAt, run, i);
    StepKeepsFifo(flushAt, run.states[i], run.events[i], run.states[i + 1]);
    hide *;
  }

  lemma FifoMeansPrefix(s: System)
    requires FirstInFirstOut(s)
    ensures Finished(s.completed) <= s.accepted
  {
    hide Finished;
  }

  /** Flush order, over the whole run and every reboot. */
  lemma FlushOrder(flushAt: nat, run: Run, n: nat, id: BatchId)
    requires IsRun(flushAt, run) && n < |run.states|
    ensures SentFor(run.states[n].sent, id) + Get(run.states[n].l.results, id) ==
            CompletedFor(run.states[n].completed, id)
  {
    RunKeeps(flushAt, run, n);
  }

  /** Everything that is completed has been sent to its client. */
  ghost predicate AllSent(s: System) {
    forall id :: SentFor(s.sent, id) == CompletedFor(s.completed, id)
  }

  ghost predicate HoldsNothing(s: System) {
    forall id :: Get(s.l.results, id) == []
  }

  lemma AllSentIff(s: System)
    requires InOrder(s)
    ensures AllSent(s) <==> HoldsNothing(s)
  {
    forall id ensures SentFor(s.sent, id) == CompletedFor(s.completed, id) <==> Get(s.l.results, id) == [] {
      assert SentFor(s.sent, id) + Get(s.l.results, id) == CompletedFor(s.completed, id);
    }
  }

  lemma FlushEmpties(flushAt: nat, s: System, due: bool, sendOk: bool, s': System)
    requires Step(flushAt, s, Flush(due, sendOk), s')
    ensures HoldsNothing(s') <==>
              || HoldsNothing(s)
              || (!s.l.shut && sendOk && (|s.l.queue| == 0 || |s.l.queue| == flushAt || due))
  {
  }

  /** When a turn of the run loop leaves nothing for its client unsent: if and only if nothing was held
      before, or the send succeeds while the queue is open and it is empty, exactly `flushAt` bitstreams
      long, or the interval has passed. */
  lemma FlushSendsAllIff(flushAt: nat, run: Run, i: nat)
    requires IsRun(flushAt, run) && i < |run.events| && run.events[i].Flush?
    ensures var s, ev := run.states[i], run.events[i];
            AllSent(run.states[i + 1]) <==>
              || AllSent(s)
              || (!s.l.shut && ev.sendOk && (|s.l.queue| == 0 || |s.l.queue| == flushAt || ev.due))
  {
    RunKeeps(flushAt, run, i);
    RunKeeps(flushAt, run, i + 1);
    assert StepAt(flushAt, run, i);
    hide AllSent, HoldsNothing, InOrder, Shaped, NothingLost, HeldOnlyWithWork, Step;
    AllSentIff(run.states[i]);
    AllSentIff(run.states[i + 1]);
    FlushEmpties(flushAt, run.states[i], run.events[i].due, run.events[i].sendOk, run.states[i + 1]);
  }

  /** The run loop never waits on an empty queue while it holds results. */
  lemma NeverBlocksHolding(flushAt: nat, run: Run, n: nat, id: BatchId)
    requires IsRun(flushAt, run) && n < |run.states|
    requires run.states[n].external == 0 && !run.states[n].sendFailed
    requires run.states[n].phase.AtLoop? && !run.states[n].l.shut && run.states[n].l.queue == []
    ensures Get(run.states[n].l.results, id) == []
    ensures SentFor(run.states[n].sent, id) == CompletedFor(run.states[n].completed, id)
  {
    RunKeeps(flushAt, run, n);
  }

  /** A reboot raised by the run thread: what was queued comes first, the failed one last. */
  lemma SelfRebootOrder(flushAt: nat, s: System, a: System, b: System, c: System)
    requires Shaped(s) && Step(flushAt, s, UploadFails, a)
    requires Step(flushAt, a, Switch, b) && Step(flushAt, b, Install, c)
    ensures c.l.queue == s.l.queue + [s.phase.b] && c.l.results == s.l.results
    ensures Everywhere(c) == Everywhere(s)
  {
    StepKeepsShape(flushAt, s, UploadFails, a);
    StepKeepsShape(flushAt, a, Switch, b);
    hide Everywhere;
    UploadFailsMoves(flushAt, s, a);
    SwitchMoves(flushAt, a, b);
    InstallMoves(flushAt, b, c);
  }
}
