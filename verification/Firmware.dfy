/** The transfer state machine shared by both firmwares (firmware/variance/main.cpp and
    firmware/pulse_count/main.cpp) and the worker's chunked writes (UploadState.py). */
module FirmwareModel {

  type Byte = x: int | 0 <= x < 256

  datatype State =
    | Boot
    | WaitForUsb
    | UsbConnected
    | UsbDisconnected
    | WaitForTransfer
    | Transfer
    | Flash
    | SampleAdc
    | Idle

  /** `size` is the image length; `samples` tells the variance firmware from the pulse counter. */
  datatype Build = Build(size: nat, samples: bool)

  /** The variables of `main` and the USB receive queue. */
  datatype Vars = Vars(current: State, previous: State, received: nat, bitstream: seq<Byte>, fifo: seq<Byte>)

  /** What one turn of the loop meets: whether USB is connected, whether the watchdog has run out,
      the bytes that arrived since the last turn, and whether a disconnect emptied the queue. */
  datatype Input = Input(connected: bool, timedOut: bool, arrived: seq<Byte>, cleared: bool)

  function Receive(v: Vars, input: Input): Vars {
    v.(fifo := (if input.cleared && !input.connected then [] else v.fifo) + input.arrived)
  }

  /** How many bytes `TRANSFER_BITSTREAM` reads. */
  function ReadCount(size: nat, received: nat, available: nat): nat
    requires received <= size
  {
    if received + available > size then size - received else available
  }

  /** One turn of `TRANSFER_BITSTREAM`. */
  function TransferTurn(b: Build, v: Vars, input: Input): Vars
    requires v.received <= b.size == |v.bitstream|
  {
    var received := if v.previous != Transfer then 0 else v.received;
    if !input.connected then
      v.(previous := Transfer, current := UsbDisconnected, received := 0)
    else
      var n := ReadCount(b.size, received, |v.fifo|);
      var got := received + n;
      Vars(if got >= b.size then Flash else if input.timedOut then WaitForTransfer else Transfer,
           // a watchdog that has just run out has already left the transfer state
           if got >= b.size && input.timedOut then WaitForTransfer else Transfer,
           got,
           v.bitstream[..received] + v.fifo[..n] + v.bitstream[got..],
           v.fifo[n..])
  }

  /** One turn of the loop in `main`. */
  function Turn(b: Build, v0: Vars, input: Input): Vars
    requires v0.received <= b.size == |v0.bitstream|
  {
    var v := Receive(v0, input);
    match v.current
    case Boot => v.(current := WaitForUsb)
    case WaitForUsb => if input.connected then v.(current := UsbConnected) else v
    case UsbConnected =>
      v.(previous := if v.previous != UsbConnected && v.previous != Boot then UsbConnected else v.previous,
         current := WaitForTransfer)
    case UsbDisconnected =>
      v.(previous := UsbDisconnected, current := if input.connected then UsbConnected else UsbDisconnected)
    case WaitForTransfer =>
      v.(previous := WaitForTransfer,
         current := if !input.connected then UsbDisconnected else if v.fifo != [] then Transfer else WaitForTransfer)
    case Transfer => TransferTurn(b, v, input)
    case Flash => v.(previous := Flash, current := if b.samples then SampleAdc else Idle)
    case SampleAdc => v.(previous := SampleAdc, current := Idle)
    case Idle => v.(previous := Idle, current := WaitForUsb)
  }

  class Board {
    const build: Build
    const bitstream: array<Byte>
    var current: State
    var previous: State
    var received: nat
    var fifo: seq<Byte>

    ghost function View(): Vars
      reads this, bitstream
    {
      Vars(current, previous, received, bitstream[..], fifo)
    }

    ghost predicate Valid()
      reads this
    {
      received <= build.size == bitstream.Length
    }

    constructor (build: Build)
      ensures Valid() && fresh(bitstream) && this.build == build
      ensures View() == Vars(Boot, Boot, 0, seq(build.size, _ => 0), [])
    {
      this.build := build;
      bitstream := new Byte[build.size](_ => 0);
      current, previous, received, fifo := Boot, Boot, 0, [];
    }

    /** One turn of the loop; `flashed` tells whether it wrote `bitstream` to the FPGA. */
    method Iterate(input: Input) returns (flashed: bool)
      requires Valid()
      modifies this, bitstream
      ensures Valid()
      ensures View() == Turn(build, old(View()), input)
      ensures flashed <==> old(current) == Flash
    {
      flashed := false;
      if input.cleared && !input.connected {
        fifo := [];
      }
      fifo := fifo + input.arrived;
      match current {
        case Boot => current := WaitForUsb;
        case WaitForUsb =>
          if input.connected { current := UsbConnected; }
        case UsbConnected =>
          if previous != current && previous != Boot { previous := current; }
          current := WaitForTransfer;
        case UsbDisconnected =>
          if !input.connected {
            if previous != current { previous := current; }
          } else {
            previous := current;
            current := UsbConnected;
          }
        case WaitForTransfer =>
          if previous != current { previous := current; }
          if fifo != [] { current := Transfer; }
          if !input.connected { current := UsbDisconnected; }
        case Transfer => TransferBitstream(input);
        case Flash =>
          if previous != current { previous := current; }
          flashed := true;
          current := if build.samples then SampleAdc else Idle;
        case SampleAdc =>
          if previous != current { previous := current; }
          current := Idle;
        case Idle =>
          if previous != current { previous := current; }
          current := WaitForUsb;
      }
    }

    method TransferBitstream(input: Input)
      requires Valid() && current == Transfer
      modifies this, bitstream
      ensures Valid()
      ensures View() == TransferTurn(build, old(View()), input)
    {
      if previous != current {
        received := 0;
        previous := current;
      }
      if !input.connected {
        previous := current;
        current := UsbDisconnected;
        received := 0;
        return;
      }
      if input.timedOut {
        previous := current;
        current := WaitForTransfer;
      }
      ReadAvailable();
      if received >= build.size {
        previous := current;
        current := Flash;
      }
    }

    /** Reads what has arrived, but never past the end of the image. */
    method ReadAvailable()
      requires Valid()
      modifies this`received, this`fifo, bitstream
      ensures Valid()
      ensures var n := ReadCount(build.size, old(received), |old(fifo)|);
              && received == old(received) + n && fifo == old(fifo)[n..]
              && bitstream[..] == old(bitstream[..])[..old(received)] + old(fifo)[..n] + old(bitstream[..])[received..]
    {
      if |fifo| > 0 {
        var numToRead := |fifo|;
        if received + |fifo| > build.size {
          numToRead := build.size - received;
        }
        CopyIn(numToRead);
        fifo := fifo[numToRead..];
        received := received + numToRead;
      } else {
        assert bitstream[..] == bitstream[..received] + [] + bitstream[received..];
      }
    }

    /** `tud_cdc_n_read(0, &bitstream[received], n)`. */
    method CopyIn(n: nat)
      requires received + n <= bitstream.Length && n <= |fifo|
      modifies bitstream
      ensures bitstream[..] == old(bitstream[..])[..received] + fifo[..n] + old(bitstream[..])[received + n..]
    {
      for i := 0 to n
        invariant bitstream[..] == old(bitstream[..])[..received] + fifo[..i] + old(bitstream[..])[received + i..]
      {
        bitstream[received + i] := fifo[i];
      }
    }
  }

  const CHUNK_SIZE := 512

  function Concat(chunks: seq<seq<Byte>>): seq<Byte> {
    if chunks == [] then [] else Concat(chunks[..|chunks| - 1]) + chunks[|chunks| - 1]
  }

  /** `_writeBitstream`: the file goes out in writes of at most 512 bytes. */
  method WriteBitstream(data: seq<Byte>) returns (writes: seq<seq<Byte>>)
    ensures Concat(writes) == data
    ensures forall w | w in writes :: 0 < |w| <= CHUNK_SIZE
  {
    writes := [];
    var i := 0;
    while i < |data|
      invariant 0 <= i
      invariant Concat(writes) == if i <= |data| then data[..i] else data
      invariant forall w | w in writes :: 0 < |w| <= CHUNK_SIZE
    {
      var end := if i + CHUNK_SIZE <= |data| then i + CHUNK_SIZE else |data|;
      var chunk := data[i..end];
      assert (writes + [chunk])[..|writes|] == writes;
      writes := writes + [chunk];
      i := i + CHUNK_SIZE;
    }
  }
}

/** What the firmware flashes, over every run of its loop. */
module FirmwareRuns {
  import opened FirmwareModel
  import opened MappedQueuesModel

  /** The variables, and the history: all bytes read so far, how many had been read when the
      transfer state was last entered, and the images flashed with where they started. */
  datatype System = System(v: Vars, consumed: seq<Byte>, entry: nat, flashed: seq<seq<Byte>>, starts: seq<nat>)

  ghost function Next(b: Build, s: System, input: Input): System
    requires s.v.received <= b.size == |s.v.bitstream|
  {
    var v := Receive(s.v, input);
    var v' := Turn(b, s.v, input);
    System(v',
           // what left the queue by reading
           if s.v.current == Transfer && input.connected
           then s.consumed + v.fifo[..|v.fifo| - |v'.fifo|]
           else s.consumed,
           if s.v.current == Transfer && s.v.previous != Transfer then |s.consumed| else s.entry,
           if s.v.current == Flash then s.flashed + [s.v.bitstream] else s.flashed,
           if s.v.current == Flash then s.starts + [s.entry] else s.starts)
  }

  ghost predicate Init(b: Build, s: System) {
    && s.v.current == Boot && s.v.previous == Boot && s.v.received == 0 && |s.v.bitstream| == b.size
    && s.v.fifo == [] && s.consumed == [] && s.entry == 0 && s.flashed == [] && s.starts == []
  }

  /** The bytes of the current transfer are the ones read since it was entered. */
  ghost predicate Framed(b: Build, s: System) {
    && s.v.received <= b.size == |s.v.bitstream|
    && s.entry <= |s.consumed|
    && (s.v.current == Transfer ==> s.v.previous == Transfer || s.v.previous == WaitForTransfer)
    && (s.v.current == Transfer && s.v.previous == Transfer ==>
          s.v.received < b.size && s.v.bitstream[..s.v.received] == s.consumed[s.entry..])
    && (s.v.current == Flash ==> s.v.bitstream == s.consumed[s.entry..])
  }

  /** Every flashed image is a window of the bytes read, and the windows do not overlap. */
  ghost predicate Windowed(b: Build, s: System) {
    && |s.flashed| == |s.starts|
    && (forall k | 0 <= k < |s.starts| ::
          s.starts[k] + b.size <= |s.consumed| && s.flashed[k] == s.consumed[s.starts[k]..s.starts[k] + b.size])
    && (forall k | 0 <= k < |s.starts| - 1 :: s.starts[k] + b.size <= s.starts[k + 1])
    && (s.starts != [] && (s.v.current == Flash || (s.v.current == Transfer && s.v.previous == Transfer)) ==>
          s.starts[|s.starts| - 1] + b.size <= s.entry)
  }

  lemma TransferFrames(b: Build, s: System, input: Input)
    requires Framed(b, s) && s.v.current == Transfer
    ensures Framed(b, Next(b, s, input))
  {
    var s' := Next(b, s, input);
    if input.connected {
      var v := Receive(s.v, input);
      var received := if s.v.previous != Transfer then 0 else s.v.received;
      var n := ReadCount(b.size, received, |v.fifo|);
      assert s'.consumed == s.consumed + v.fifo[..n];
      assert s'.v.bitstream[..received + n] == s.v.bitstream[..received] + v.fifo[..n];
      assert s'.consumed[s'.entry..] == s.consumed[s'.entry..] + v.fifo[..n];
      if s.v.previous != Transfer { assert s.v.bitstream[..0] == s.consumed[|s.consumed|..]; }
      if s'.v.current == Flash { assert s'.v.bitstream == s'.v.bitstream[..received + n]; }
    }
  }

  lemma NextFrames(b: Build, s: System, input: Input)
    requires Framed(b, s)
    ensures Framed(b, Next(b, s, input))
  {
    if s.v.current == Transfer {
      TransferFrames(b, s, input);
    }
  }

  lemma ReadsForward(b: Build, s: System, input: Input)
    requires Framed(b, s)
    ensures s.consumed <= Next(b, s, input).consumed
    ensures var s' := Next(b, s, input);
            s'.v.current == Flash || (s'.v.current == Transfer && s'.v.previous == Transfer) ==>
              s.v.current == Transfer && s'.entry == (if s.v.previous != Transfer then |s.consumed| else s.entry)
  {
  }

  lemma WindowsStay(b: Build, s: System, consumed: seq<Byte>, k: nat)
    requires Windowed(b, s) && s.consumed <= consumed && k < |s.starts|
    ensures s.starts[k] + b.size <= |consumed|
    ensures s.flashed[k] == consumed[s.starts[k]..s.starts[k] + b.size]
  {
    assert s.consumed[s.starts[k]..s.starts[k] + b.size] == consumed[s.starts[k]..s.starts[k] + b.size];
  }

  lemma NextWindows(b: Build, s: System, input: Input)
    requires Framed(b, s) && Windowed(b, s)
    ensures Windowed(b, Next(b, s, input))
  {
    ReadsForward(b, s, input);
    var s' := Next(b, s, input);
    forall k | 0 <= k < |s.starts|
      ensures s.starts[k] + b.size <= |s'.consumed|
      ensures s.flashed[k] == s'.consumed[s.starts[k]..s.starts[k] + b.size]
    {
      WindowsStay(b, s, s'.consumed, k);
    }
    if s.v.current == Flash {
      FlashAddsWindow(b, s, input);
    } else {
      hide Turn, Receive, Framed;
      assert s'.starts == s.starts && s'.flashed == s.flashed;
    }
  }

  lemma FlashAddsWindow(b: Build, s: System, input: Input)
    requires Framed(b, s) && Windowed(b, s) && s.v.current == Flash
    ensures Windowed(b, Next(b, s, input))
  {
    var s' := Next(b, s, input);
    assert s.consumed[s.entry..] == s.consumed[s.entry..s.entry + b.size];
    assert s'.consumed == s.consumed && s'.v.current != Flash && s'.v.current != Transfer;
    assert s'.flashed == s.flashed + [s.v.bitstream] && s'.starts == s.starts + [s.entry];
    hide Next;
  }

  // ---------------------------------------------------------------- runs

  datatype Run = Run(states: seq<System>, inputs: seq<Input>)

  ghost predicate IsRun(b: Build, run: Run) {
    && |run.states| == |run.inputs| + 1 && Init(b, run.states[0])
    && forall i | 0 <= i < |run.inputs| :: StepAt(b, run, i)
  }

  ghost predicate StepAt(b: Build, run: Run, i: nat)
    requires i < |run.inputs| && i + 1 < |run.states|
  {
    var s := run.states[i];
    s.v.received <= b.size == |s.v.bitstream| && run.states[i + 1] == Next(b, s, run.inputs[i])
  }

  lemma {:induction false} RunFrames(b: Build, run: Run, n: nat)
    requires IsRun(b, run) && n < |run.states|
    ensures Framed(b, run.states[n]) && Windowed(b, run.states[n])
  {
    if n == 0 {
    } else {
      hide Framed, Windowed, Next;
      RunFrames(b, run, n - 1);
      assert StepAt(b, run, n - 1);
      NextFrames(b, run.states[n - 1], run.inputs[n - 1]);
      NextWindows(b, run.states[n - 1], run.inputs[n - 1]);
    }
  }

  /** A flash happens only with exactly the bytes read since the transfer state was last entered,
      as many as the image is long; the receive count never exceeds it. */
  lemma FlashOnlyWholeImages(b: Build, run: Run, n: nat)
    requires IsRun(b, run) && n < |run.states|
    ensures run.states[n].v.received <= b.size
    ensures run.states[n].v.current == Flash ==>
              var s := run.states[n];
              && |s.consumed| - s.entry == b.size
              && s.v.bitstream == s.consumed[s.entry..]
  {
    RunFrames(b, run, n);
  }

  /** Whatever times out or disconnects, the images flashed are non-overlapping windows of the bytes
      read, in order. */
  lemma FlashedWindows(b: Build, run: Run, n: nat, k: nat)
    requires IsRun(b, run) && n < |run.states| && k < |run.states[n].flashed|
    ensures var s := run.states[n];
            && |s.starts| == |s.flashed| && s.starts[k] + b.size <= |s.consumed|
            && s.flashed[k] == s.consumed[s.starts[k]..s.starts[k] + b.size]
            && (k + 1 < |s.starts| ==> s.starts[k] + b.size <= s.starts[k + 1])
  {
    RunFrames(b, run, n);
  }

  // ---------------------------------------------------------------- without timeouts or disconnects

  ghost predicate Calm(run: Run) {
    |run.inputs| < |run.states| && forall i | 0 <= i < |run.inputs| :: CalmInput(run.states[i], run.inputs[i])
  }

  ghost predicate CalmInput(s: System, input: Input) {
    && !input.timedOut && !input.cleared
    && (input.connected || s.v.current == WaitForUsb || s.v.current == Boot)
  }

  ghost function Arrived(inputs: seq<Input>): seq<Byte> {
    if inputs == [] then [] else Arrived(inputs[..|inputs| - 1]) + inputs[|inputs| - 1].arrived
  }

  /** Where image `k` starts in the stream. */
  ghost function Start(b: Build, k: nat): nat {
    k * b.size
  }

  lemma NextStart(b: Build, k: nat)
    ensures Start(b, k + 1) == Start(b, k) + b.size
  {
  }

  /** No byte is skipped: the bytes read are the images flashed and the one under way. */
  ghost predicate Aligned(b: Build, s: System) {
    && |s.starts| == |s.flashed|
    && (forall k | 0 <= k < |s.starts| :: s.starts[k] == Start(b, k))
    && s.v.current != UsbDisconnected
    && (if s.v.current == Flash || (s.v.current == Transfer && s.v.previous == Transfer)
        then s.entry == Start(b, |s.starts|)
        else |s.consumed| == Start(b, |s.starts|))
  }

  /** Bytes only move from the queue to the image, unless a disconnect empties the queue. */
  lemma NextStreams(b: Build, s: System, input: Input)
    requires Framed(b, s)
    ensures Next(b, s, input).consumed + Next(b, s, input).v.fifo ==
            s.consumed + (if input.cleared && !input.connected then [] else s.v.fifo) + input.arrived
  {
    var s', v := Next(b, s, input), Receive(s.v, input);
    var queued := if input.cleared && !input.connected then [] else s.v.fifo;
    assert v.fifo == queued + input.arrived;
    if s.v.current == Transfer && input.connected {
      assert |s'.v.fifo| <= |v.fifo| && s'.v.fifo == v.fifo[|v.fifo| - |s'.v.fifo|..];
      assert s'.consumed == s.consumed + v.fifo[..|v.fifo| - |s'.v.fifo|];
    } else {
      assert s'.v.fifo == v.fifo && s'.consumed == s.consumed;
    }
    hide Next, Framed, Receive;
    ReadMoves(s.consumed, queued, input.arrived, |v.fifo| - |s'.v.fifo|);
  }

  lemma ReadMoves(consumed: seq<Byte>, fifo: seq<Byte>, arrived: seq<Byte>, n: nat)
    requires n <= |fifo + arrived|
    ensures consumed + (fifo + arrived)[..n] + (fifo + arrived)[n..] == consumed + fifo + arrived
    ensures consumed + (fifo + arrived) == consumed + fifo + arrived
  {
  }

  lemma NextAligned(b: Build, s: System, input: Input)
    requires Framed(b, s) && Aligned(b, s) && CalmInput(s, input)
    ensures Aligned(b, Next(b, s, input))
  {
    hide Start;
    var s' := Next(b, s, input);
    TransferKeepsCount(b, s, input);
    NextStart(b, |s.starts|);
  }

  /** Outside the transfer state nothing is read, and an unfinished transfer goes on. */
  lemma TransferKeepsCount(b: Build, s: System, input: Input)
    requires Framed(b, s) && CalmInput(s, input)
    ensures s.v.current != Transfer ==> Next(b, s, input).consumed == s.consumed
    ensures s.v.current == Transfer && input.connected ==>
              Next(b, s, input).v.current == Flash ||
              (Next(b, s, input).v.current == Transfer && Next(b, s, input).v.previous == Transfer)
    ensures s.v.current == Flash ==> |s.consumed| == s.entry + b.size
  {
  }

  lemma {:induction false} CalmRun(b: Build, run: Run, n: nat)
    requires IsRun(b, run) && Calm(run) && n < |run.states|
    ensures Aligned(b, run.states[n])
    ensures run.states[n].consumed + run.states[n].v.fifo == Arrived(run.inputs[..n])
  {
    if n > 0 {
      hide Aligned, Next, Framed, Windowed;
      CalmRun(b, run, n - 1);
      RunFrames(b, run, n - 1);
      assert StepAt(b, run, n - 1);
      assert CalmInput(run.states[n - 1], run.inputs[n - 1]);
      NextAligned(b, run.states[n - 1], run.inputs[n - 1]);
      NextStreams(b, run.states[n - 1], run.inputs[n - 1]);
      assert run.inputs[..n][..n - 1] == run.inputs[..n - 1];
    }
  }

  /** Without timeouts or disconnects image `k` is bytes `k*size` to `(k+1)*size` of the stream, for
      any way the bytes arrive. */
  lemma ImagesInOrder(b: Build, run: Run, n: nat, k: nat)
    requires IsRun(b, run) && Calm(run) && n < |run.states| && k < |run.states[n].flashed|
    ensures (k + 1) * b.size <= |Arrived(run.inputs[..n])|
    ensures run.states[n].flashed[k] == Arrived(run.inputs[..n])[k * b.size..(k + 1) * b.size]
  {
    CalmRun(b, run, n);
    FlashedWindows(b, run, n, k);
    var s := run.states[n];
    assert (k + 1) * b.size == k * b.size + b.size;
    var stream := s.consumed + s.v.fifo;
    assert stream[k * b.size..(k + 1) * b.size] == s.consumed[k * b.size..(k + 1) * b.size];
  }

  ghost predicate OfSize(files: seq<seq<Byte>>, size: nat) {
    forall f | f in files :: |f| == size
  }

  lemma NextTimes(n: nat, size: nat)
    ensures (n + 1) * size == n * size + size
  {
  }

  lemma {:induction false} FileAt(files: seq<seq<Byte>>, size: nat, k: nat)
    requires OfSize(files, size) && k < |files|
    ensures |Concat(files)| == |files| * size && (k + 1) * size <= |files| * size
    ensures 0 <= k * size && Concat(files)[k * size..(k + 1) * size] == files[k]
    decreases |files|
  {
    var n := |files| - 1;
    var front, last := files[..n], files[n];
    assert last in files && forall f | f in front :: f in files;
    assert Concat(files) == Concat(front) + last && |last| == size;
    NextTimes(n, size);
    NextTimes(k, size);
    if n == 0 {
      assert Concat(front) == [];
    } else {
      FileAt(front, size, if k < n then k else 0);
    }
    hide Concat, OfSize;
    if k < n {
      SamePart(Concat(front), Concat(files), k * size, (k + 1) * size);
    } else {
      LastPart(Concat(front), last, n * size);
    }
  }

  lemma LastPart(front: seq<Byte>, last: seq<Byte>, n: nat)
    requires |front| == n
    ensures (front + last)[n..n + |last|] == last
  {
  }

  /** The worker's files, each one image long, are flashed as the same files in the same order,
      however its writes are cut up on the way; and once everything sent was read, none is missing. */
  lemma FilesArrive(b: Build, run: Run, n: nat, files: seq<seq<Byte>>)
    requires IsRun(b, run) && Calm(run) && n < |run.states| && 0 < b.size
    requires OfSize(files, b.size) && Arrived(run.inputs[..n]) <= Concat(files)
    ensures |run.states[n].flashed| <= |files|
    ensures forall k | 0 <= k < |run.states[n].flashed| :: run.states[n].flashed[k] == files[k]
    ensures |run.states[n].consumed| == |Concat(files)| && run.states[n].v.current != Flash ==>
              run.states[n].flashed == files
  {
    NoMoreThanFiles(b, run, n, files);
    forall k | 0 <= k < |run.states[n].flashed| ensures run.states[n].flashed[k] == files[k] {
      ImageIsFile(b, run, n, files, k);
    }
    AllRead(b, run, n, files);
  }

  lemma {:induction false} FilesLength(files: seq<seq<Byte>>, size: nat)
    requires OfSize(files, size)
    ensures |Concat(files)| == |files| * size
  {
    if files != [] {
      FileAt(files, size, 0);
    }
  }

  lemma NoMoreThanFiles(b: Build, run: Run, n: nat, files: seq<seq<Byte>>)
    requires IsRun(b, run) && Calm(run) && n < |run.states| && 0 < b.size
    requires OfSize(files, b.size) && Arrived(run.inputs[..n]) <= Concat(files)
    ensures |run.states[n].flashed| <= |files|
  {
    FilesLength(files, b.size);
    var m := |run.states[n].flashed|;
    if m > 0 {
      ImagesInOrder(b, run, n, m - 1);
      Cancel(m, |files|, b.size);
    }
  }

  lemma ImageIsFile(b: Build, run: Run, n: nat, files: seq<seq<Byte>>, k: nat)
    requires IsRun(b, run) && Calm(run) && n < |run.states|
    requires OfSize(files, b.size) && Arrived(run.inputs[..n]) <= Concat(files)
    requires k < |run.states[n].flashed| && k < |files|
    ensures run.states[n].flashed[k] == files[k]
  {
    ImagesInOrder(b, run, n, k);
    FileAt(files, b.size, k);
    hide Arrived, Concat, IsRun, Calm, OfSize;
    SamePart(Arrived(run.inputs[..n]), Concat(files), k * b.size, (k + 1) * b.size);
  }

  lemma SamePart(x: seq<Byte>, y: seq<Byte>, i: nat, j: nat)
    requires x <= y && i <= j <= |x|
    ensures x[i..j] == y[i..j]
  {
  }

  lemma AllRead(b: Build, run: Run, n: nat, files: seq<seq<Byte>>)
    requires IsRun(b, run) && Calm(run) && n < |run.states| && 0 < b.size
    requires OfSize(files, b.size) && |run.states[n].flashed| <= |files|
    ensures |run.states[n].consumed| == |Concat(files)| && run.states[n].v.current != Flash ==>
              |run.states[n].flashed| == |files|
  {
    var s, size := run.states[n], b.size;
    CalmRun(b, run, n);
    RunFrames(b, run, n);
    FilesLength(files, size);
    if |s.consumed| == |Concat(files)| && s.v.current != Flash {
      assert |s.consumed| < |s.flashed| * size + size;
      Between(|s.flashed|, |files|, size);
    }
  }

  lemma Cancel(x: nat, y: nat, size: nat)
    requires 0 < size
    ensures x * size <= y * size ==> x <= y
  {
    assert (x - y) * size == x * size - y * size;
    if y < x {
      AtLeast(x - y, size);
    }
  }

  lemma Between(x: nat, y: nat, size: nat)
    requires 0 < size && x * size <= y * size < x * size + size
    ensures x == y
  {
    Cancel(x, y, size);
    assert (y - x) * size == y * size - x * size;
    if x < y {
      AtLeast(y - x, size);
    }
  }
}
