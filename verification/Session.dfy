/** One client's event session (src/icefarm/utils/EventSender.py): a message queue that any number of
    threads append to and flush, and a socket that comes and goes. */
module SessionModel {
  import opened Options

  datatype Message = Message(data: string)
  type SocketId = string

  /** The fields of one `Session` that its lock guards. */
  datatype Local = Local(queue: seq<Message>, socket: Option<SocketId>)

  /** Whether a flush takes the queue. */
  predicate Takes(l: Local) {
    l.queue != [] && l.socket.Some?
  }

  function AfterTake(l: Local): Local {
    if Takes(l) then l.(queue := []) else l
  }

  /** Those messages for which the server's library answered `ok`, in order; `emits[i]` tells whether
      the emit of message `i` succeeded. */
  function Where(messages: seq<Message>, emits: seq<bool>, ok: bool): (out: seq<Message>)
    requires |messages| == |emits|
  {
    if messages == [] then []
    else
      var last := |messages| - 1;
      Where(messages[..last], emits[..last], ok) + (if emits[last] == ok then [messages[last]] else [])
  }

  lemma {:induction false} WhereStep(messages: seq<Message>, emits: seq<bool>, i: nat, ok: bool)
    requires i < |messages| == |emits|
    ensures Where(messages[..i + 1], emits[..i + 1], ok) ==
            Where(messages[..i], emits[..i], ok) + (if emits[i] == ok then [messages[i]] else [])
  {
    assert messages[..i + 1][..i] == messages[..i] && emits[..i + 1][..i] == emits[..i];
  }

  /** Nothing is lost and nothing is copied: a message went out or waits again. */
  lemma {:induction false} WhereSplits(messages: seq<Message>, emits: seq<bool>)
    requires |messages| == |emits|
    ensures multiset(messages) == multiset(Where(messages, emits, true)) + multiset(Where(messages, emits, false))
  {
    if messages != [] {
      var last := |messages| - 1;
      var m, sent, kept := messages[last], Where(messages[..last], emits[..last], true),
                           Where(messages[..last], emits[..last], false);
      WhereSplits(messages[..last], emits[..last]);
      assert messages == messages[..last] + [m];
      Either(messages[..last], m, sent, kept);
    }
  }

  lemma Either(messages: seq<Message>, m: Message, sent: seq<Message>, kept: seq<Message>)
    requires multiset(messages) == multiset(sent) + multiset(kept)
    ensures multiset(messages + [m]) == multiset(sent + [m]) + multiset(kept + [])
    ensures multiset(messages + [m]) == multiset(sent + []) + multiset(kept + [m])
  {
    assert sent + [] == sent && kept + [] == kept;
  }

  /** How many emits got the answer `ok`. */
  ghost function Count(emits: seq<bool>, ok: bool): nat {
    if emits == [] then 0
    else Count(emits[..|emits| - 1], ok) + (if emits[|emits| - 1] == ok then 1 else 0)
  }

  /** They keep their order: message `i` stands behind just those of its kind that came before it. */
  lemma {:induction false} WhereInOrder(messages: seq<Message>, emits: seq<bool>, ok: bool, i: nat)
    requires i < |messages| == |emits| && emits[i] == ok
    ensures |Where(messages, emits, ok)| == Count(emits, ok)
    ensures Count(emits[..i], ok) < Count(emits, ok)
    ensures Where(messages, emits, ok)[Count(emits[..i], ok)] == messages[i]
    decreases |messages|
  {
    var last := |messages| - 1;
    WhereCounts(messages[..last], emits[..last], ok);
    if i < last {
      WhereInOrder(messages[..last], emits[..last], ok, i);
      assert emits[..last][..i] == emits[..i];
    }
  }

  lemma {:induction false} WhereCounts(messages: seq<Message>, emits: seq<bool>, ok: bool)
    requires |messages| == |emits|
    ensures |Where(messages, emits, ok)| == Count(emits, ok)
  {
    if messages != [] {
      WhereCounts(messages[..|messages| - 1], emits[..|messages| - 1], ok);
    }
  }

  class Session {
    var messageQueue: seq<Message>
    var sockId: Option<SocketId>

    ghost function View(): Local
      reads this
    {
      Local(messageQueue, sockId)
    }

    constructor ()
      ensures View() == Local([], None)
    {
      messageQueue, sockId := [], None;
    }

    /** The locked part of `send`. */
    method Append(data: Message)
      modifies this`messageQueue
      ensures View() == old(View()).(queue := old(messageQueue) + [data])
    {
      messageQueue := messageQueue + [data];
    }

    /** The locked part of `setSocket` and `removeSocket`. */
    method PointAt(socket: Option<SocketId>)
      modifies this`sockId
      ensures View() == old(View()).(socket := socket)
    {
      sockId := socket;
    }

    /** The locked part of `flush`: with a socket, the whole queue is taken at once. */
    method TakeQueue() returns (messages: seq<Message>, socket: Option<SocketId>)
      modifies this`messageQueue
      ensures View() == AfterTake(old(View()))
      ensures Takes(old(View())) ==> messages == old(messageQueue) && socket == sockId
      ensures !Takes(old(View())) ==> messages == [] && socket == None
      ensures if old(messageQueue) != [] && sockId.Some?
              then messageQueue == [] && messages == old(messageQueue) && socket == sockId
              else messageQueue == old(messageQueue) && messages == [] && socket == None
    {
      if messageQueue == [] || sockId.None? {
        return [], None;
      }
      messages, socket, messageQueue := messageQueue, sockId, [];
    }

    /** A `flush` that nothing interrupts: what went out, in order; what failed waits again. */
    method Flush(emits: seq<bool>) returns (emitted: seq<Message>)
      requires |emits| == |messageQueue|
      modifies this`messageQueue
      ensures !Takes(old(View())) ==> View() == old(View()) && emitted == []
      ensures Takes(old(View())) ==> emitted == Where(old(messageQueue), emits, true)
      ensures Takes(old(View())) ==> messageQueue == Where(old(messageQueue), emits, false)
    {
      var messages, socket := TakeQueue();
      emitted := [];
      if socket.None? {
        return;
      }
      for i := 0 to |messages|
        invariant emitted == Where(messages[..i], emits[..i], true)
        invariant messageQueue == Where(messages[..i], emits[..i], false)
      {
        WhereStep(messages, emits, i, true);
        WhereStep(messages, emits, i, false);
        if emits[i] {
          emitted := emitted + [messages[i]];
        } else {
          Append(messages[i]);
        }
      }
      assert messages[..|messages|] == messages && emits[..|messages|] == emits;
    }
  }
}

/** Every interleaving of sends, flushes, socket changes and emits on one session. */
module SessionRuns {
  import opened Options
  import opened SessionModel

  /** A flush that has taken the queue: where it emits to and what it has not emitted yet. */
  datatype Flight = Flight(socket: SocketId, left: seq<Message>)

  /** `flights` holds every flush that took something, in that order. `pending` counts the flushes
      that a send or a new socket is about to start, `requeued` what failed since the queue was last
      taken, `sockets` every socket the session was ever given. */
  datatype System = System(
    l: Local,
    flights: seq<Flight>,
    pending: nat,
    accepted: seq<Message>,
    emitted: seq<(SocketId, Message)>,
    requeued: seq<Message>,
    sockets: set<SocketId>)

  datatype Event =
    | Send(m: Message)
    | SetSocket(socket: SocketId)
    | RemoveSocket
    | Flush
    | EmitOk(i: nat)
    | EmitFails(i: nat)

  predicate Flying(s: System, i: nat) {
    i < |s.flights| && s.flights[i].left != []
  }

  function Landed(s: System, i: nat): seq<Flight>
    requires Flying(s, i)
  {
    s.flights[i := s.flights[i].(left := s.flights[i].left[1..])]
  }

  ghost predicate Step(s: System, ev: Event, s': System) {
    match ev
    case Send(m) =>
      s' == s.(l := s.l.(queue := s.l.queue + [m]), accepted := s.accepted + [m], pending := s.pending + 1)
    case SetSocket(socket) =>
      s' == s.(l := s.l.(socket := Some(socket)), pending := s.pending + 1, sockets := s.sockets + {socket})
    case RemoveSocket =>
      s' == s.(l := s.l.(socket := None))
    case Flush =>
      && s.pending > 0
      && s' == s.(l := AfterTake(s.l), pending := s.pending - 1,
                  flights := if Takes(s.l) then s.flights + [Flight(s.l.socket.value, s.l.queue)] else s.flights,
                  requeued := if Takes(s.l) then [] else s.requeued)
    case EmitOk(i) =>
      && Flying(s, i)
      && s' == s.(flights := Landed(s, i), emitted := s.emitted + [(s.flights[i].socket, s.flights[i].left[0])])
    case EmitFails(i) =>
      && Flying(s, i)
      && s' == s.(flights := Landed(s, i), l := s.l.(queue := s.l.queue + [s.flights[i].left[0]]),
                  requeued := s.requeued + [s.flights[i].left[0]])
  }

  ghost predicate Init(s: System) {
    s == System(Local([], None), [], 0, [], [], [], {})
  }

  datatype Run = Run(states: seq<System>, events: seq<Event>)

  ghost predicate StepAt(run: Run, i: nat)
    requires i < |run.events| && i + 1 < |run.states|
  {
    Step(run.states[i], run.events[i], run.states[i + 1])
  }

  ghost predicate IsRun(run: Run) {
    && |run.states| == |run.events| + 1 && Init(run.states[0])
    && forall i | 0 <= i < |run.events| :: StepAt(run, i)
  }

  // ---------------------------------------------------------------- delivery

  /** What the flushes under way still hold, oldest flush first. */
  ghost function InFlight(flights: seq<Flight>): seq<Message> {
    if flights == [] then [] else flights[0].left + InFlight(flights[1..])
  }

  ghost function Messages(emitted: seq<(SocketId, Message)>): seq<Message> {
    seq(|emitted|, i requires 0 <= i < |emitted| => emitted[i].1)
  }

  /** Messages not emitted yet, in the order in which they would go out. */
  ghost function Line(s: System): seq<Message> {
    InFlight(s.flights) + s.l.queue
  }

  lemma {:induction false} InFlightAppend(flights: seq<Flight>, f: Flight)
    ensures InFlight(flights + [f]) == InFlight(flights) + f.left
  {
    if flights != [] {
      InFlightAppend(flights[1..], f);
      assert (flights + [f])[1..] == flights[1..] + [f];
    }
  }

  /** Flight `i` sits between the older and the newer ones. */
  lemma {:induction false} InFlightAt(flights: seq<Flight>, i: nat)
    requires i < |flights|
    ensures InFlight(flights) == InFlight(flights[..i]) + flights[i].left + InFlight(flights[i + 1..])
  {
    if i > 0 {
      InFlightAt(flights[1..], i - 1);
      assert flights[1..][..i - 1] == flights[..i][1..] && flights[1..][i..] == flights[i + 1..];
    } else {
      assert flights[..0] == [];
    }
  }

  /** Landing takes exactly the head of flight `i` out of the air. */
  lemma LandedInFlight(s: System, i: nat)
    requires Flying(s, i)
    ensures InFlight(s.flights) ==
            InFlight(s.flights[..i]) + [s.flights[i].left[0]] + s.flights[i].left[1..] + InFlight(s.flights[i + 1..])
    ensures InFlight(Landed(s, i)) ==
            InFlight(s.flights[..i]) + s.flights[i].left[1..] + InFlight(s.flights[i + 1..])
  {
    InFlightAt(s.flights, i);
    InFlightAt(Landed(s, i), i);
    assert Landed(s, i)[..i] == s.flights[..i] && Landed(s, i)[i + 1..] == s.flights[i + 1..];
    assert s.flights[i].left == [s.flights[i].left[0]] + s.flights[i].left[1..];
    hide InFlight;
  }

  ghost predicate Delivered(s: System) {
    multiset(s.accepted) == multiset(Messages(s.emitted)) + multiset(Line(s))
  }

  lemma FlushKeepsLine(s: System, s': System)
    requires Step(s, Flush, s')
    ensures Line(s') == Line(s)
  {
    if Takes(s.l) {
      InFlightAppend(s.flights, Flight(s.l.socket.value, s.l.queue));
    }
  }

  /** What stands before and behind the next message of flight `i`. */
  ghost function Before(s: System, i: nat): seq<Message>
    requires Flying(s, i)
  {
    InFlight(s.flights[..i])
  }

  ghost function Behind(s: System, i: nat): seq<Message>
    requires Flying(s, i)
  {
    s.flights[i].left[1..] + InFlight(s.flights[i + 1..]) + s.l.queue
  }

  lemma LineAroundHead(s: System, i: nat)
    requires Flying(s, i)
    ensures Line(s) == Before(s, i) + [s.flights[i].left[0]] + Behind(s, i)
    ensures InFlight(Landed(s, i)) + s.l.queue == Before(s, i) + Behind(s, i)
  {
    LandedInFlight(s, i);
    hide InFlight, Landed;
  }

  /** An emit takes a message out of the middle of the line; a failing one puts it at the end. */
  lemma EmitMoves(s: System, ev: Event, s': System)
    requires Step(s, ev, s') && (ev.EmitOk? || ev.EmitFails?)
    ensures Flying(s, ev.i)
    ensures Line(s) == Before(s, ev.i) + [s.flights[ev.i].left[0]] + Behind(s, ev.i)
    ensures ev.EmitOk? ==> Messages(s'.emitted) == Messages(s.emitted) + [s.flights[ev.i].left[0]]
    ensures ev.EmitOk? ==> Line(s') == Before(s, ev.i) + Behind(s, ev.i)
    ensures ev.EmitFails? ==> Line(s') == Before(s, ev.i) + Behind(s, ev.i) + [s.flights[ev.i].left[0]]
  {
    LineAroundHead(s, ev.i);
    hide InFlight, Before, Behind, Landed;
    if ev.EmitFails? {
      assert Line(s') == InFlight(s'.flights) + s.l.queue + [s.flights[ev.i].left[0]];
    }
  }

  lemma StepKeepsDelivered(s: System, ev: Event, s': System)
    requires Delivered(s) && Step(s, ev, s')
    ensures Delivered(s')
  {
    if ev.Flush? {
      FlushKeepsLine(s, s');
      hide Line, Messages;
    } else if ev.EmitOk? || ev.EmitFails? {
      EmitKeepsDelivered(s, ev, s');
    } else if ev.Send? {
      assert Line(s') == Line(s) + [ev.m];
      hide Line, Messages;
    }
  }

  lemma EmitBalances(sent: seq<Message>, before: seq<Message>, m: Message, behind: seq<Message>)
    ensures multiset(sent + [m]) + multiset(before + behind) == multiset(sent) + multiset(before + [m] + behind)
    ensures multiset(sent) + multiset(before + behind + [m]) == multiset(sent) + multiset(before + [m] + behind)
  {
  }

  lemma EmitKeepsDelivered(s: System, ev: Event, s': System)
    requires Delivered(s) && Step(s, ev, s') && (ev.EmitOk? || ev.EmitFails?)
    ensures Delivered(s')
  {
    EmitMoves(s, ev, s');
    assert s'.accepted == s.accepted && (ev.EmitFails? ==> s'.emitted == s.emitted);
    EmitBalances(Messages(s.emitted), Before(s, ev.i), s.flights[ev.i].left[0], Behind(s, ev.i));
    hide Line, Before, Behind, Messages, Step;
  }

  // ---------------------------------------------------------------- nothing waits for nothing

  /** With a socket and no flush about to start, only messages whose emit failed are waiting. */
  ghost predicate Prompt(s: System) {
    && |s.requeued| <= |s.l.queue|
    && (s.l.socket.Some? && s.pending == 0 ==> s.l.queue == s.requeued)
  }

  lemma StepKeepsPrompt(s: System, ev: Event, s': System)
    requires Prompt(s) && Step(s, ev, s')
    ensures Prompt(s')
  {
  }

  /** Every message went, and every message in flight is going, to a socket this session was given. */
  ghost predicate Addressed(s: System) {
    && (s.l.socket.Some? ==> s.l.socket.value in s.sockets)
    && (forall i | 0 <= i < |s.flights| :: s.flights[i].socket in s.sockets)
    && (forall i | 0 <= i < |s.emitted| :: s.emitted[i].0 in s.sockets)
  }

  lemma StepKeepsAddressed(s: System, ev: Event, s': System)
    requires Addressed(s) && Step(s, ev, s')
    ensures Addressed(s')
  {
  }

  lemma {:induction false} RunKeeps(run: Run, n: nat)
    requires IsRun(run) && n < |run.states|
    ensures Delivered(run.states[n]) && Prompt(run.states[n]) && Addressed(run.states[n])
  {
    if n > 0 {
      hide Delivered, Prompt, Addressed, Step;
      RunKeeps(run, n - 1);
      assert StepAt(run, n - 1);
      var s, ev, s' := run.states[n - 1], run.events[n - 1], run.states[n];
      StepKeepsDelivered(s, ev, s');
      StepKeepsPrompt(s, ev, s');
      StepKeepsAddressed(s, ev, s');
    }
  }

  /** Delivery, over every interleaving: what was sent is emitted, queued or in flight, each once, and
      it only ever goes to a socket of this session. */
  lemma DeliveredOnce(run: Run, n: nat)
    requires IsRun(run) && n < |run.states|
    ensures multiset(run.states[n].accepted) ==
            multiset(Messages(run.states[n].emitted)) + multiset(InFlight(run.states[n].flights))
            + multiset(run.states[n].l.queue)
    ensures forall i | 0 <= i < |run.states[n].emitted| :: run.states[n].emitted[i].0 in run.states[n].sockets
  {
    RunKeeps(run, n);
  }

  /** A connected session at rest holds exactly what failed since the queue was last taken; so a
      message gets stuck behind a working socket if and only if its emit failed. */
  lemma StuckIffFailed(run: Run, n: nat)
    requires IsRun(run) && n < |run.states|
    requires run.states[n].l.socket.Some? && run.states[n].pending == 0
    ensures run.states[n].l.queue == run.states[n].requeued
  {
    RunKeeps(run, n);
  }
}
