/** That the board gets on: it reads what waits for it, flashes every image that has arrived, and never
    flashes a piece of a transfer that was broken off. */
module FirmwareProgress {
  import opened FirmwareModel
  import opened FirmwareRuns

  /** A turn without a disconnect or a timeout. */
  ghost predicate Steady(input: Input) {
    input.connected && !input.timedOut && !input.cleared
  }

  ghost predicate SteadyFrom(run: Run, n: nat, m: nat) {
    n <= m <= |run.inputs| && forall i | n <= i < m :: Steady(run.inputs[i])
  }

  // ---------------------------------------------------------------- waiting bytes are read

  /** How many steady turns until the board is in the transfer state, if bytes wait. */
  ghost function TurnsToTransfer(current: State): nat {
    match current
    case Transfer => 0
    case WaitForTransfer => 1
    case UsbConnected => 2
    case WaitForUsb => 3
    case UsbDisconnected => 3
    case Boot => 4
    case Idle => 4
    case SampleAdc => 5
    case Flash => 6
  }

  lemma OneTurnCloser(b: Build, s: System, input: Input)
    requires Framed(b, s) && 0 < b.size && Steady(input) && s.v.fifo != []
    ensures |s.consumed| <= |Next(b, s, input).consumed|
    ensures s.v.current == Transfer ==> |s.consumed| < |Next(b, s, input).consumed|
    ensures s.v.current != Transfer ==>
              && Next(b, s, input).v.fifo != []
              && TurnsToTransfer(Next(b, s, input).v.current) < TurnsToTransfer(s.v.current)
  {
  }

  lemma ReadMore(b: Build, run: Run, n: nat)
    requires IsRun(b, run) && n < |run.inputs| && 0 < b.size && Steady(run.inputs[n]) && run.states[n].v.fifo != []
    ensures var s, s' := run.states[n], run.states[n + 1];
            && |s.consumed| <= |s'.consumed|
            && (s.v.current == Transfer ==> |s.consumed| < |s'.consumed|)
            && (s.v.current != Transfer ==>
                  s'.v.fifo != [] && TurnsToTransfer(s'.v.current) < TurnsToTransfer(s.v.current))
  {
    RunFrames(b, run, n);
    assert StepAt(b, run, n);
    OneTurnCloser(b, run.states[n], run.inputs[n]);
    hide Framed, Windowed, Next, TurnsToTransfer;
  }

  lemma {:induction false} ReadNeverLess(b: Build, run: Run, n: nat, m: nat)
    requires IsRun(b, run) && n <= m < |run.states|
    ensures run.states[n].consumed <= run.states[m].consumed
    decreases m
  {
    if n < m {
      ReadNeverLess(b, run, n, m - 1);
      RunFrames(b, run, m - 1);
      assert StepAt(b, run, m - 1);
      ReadsForward(b, run.states[m - 1], run.inputs[m - 1]);
      hide Framed, Windowed, Next;
    }
  }

  lemma {:induction false} ReadsWithin(b: Build, run: Run, n: nat, m: nat)
    requires IsRun(b, run) && 0 < b.size && SteadyFrom(run, n, m) && run.states[n].v.fifo != []
    requires n + TurnsToTransfer(run.states[n].v.current) < m
    ensures |run.states[n].consumed| < |run.states[m].consumed|
    decreases m - n
  {
    hide StepAt, Init;
    ReadMore(b, run, n);
    ReadNeverLess(b, run, n + 1, m);
    if run.states[n].v.current != Transfer {
      ReadsWithin(b, run, n + 1, m);
    }
  }

  /** Whatever happened before, seven connected turns without a timeout are enough for the board to read
      some of the bytes that wait for it. */
  lemma ReadsSoon(b: Build, run: Run, n: nat)
    requires IsRun(b, run) && 0 < b.size && SteadyFrom(run, n, n + 7) && run.states[n].v.fifo != []
    ensures |run.states[n].consumed| < |run.states[n + 7].consumed|
  {
    ReadsWithin(b, run, n, n + 7);
  }

  // ---------------------------------------------------------------- what has arrived is flashed

  /** How many steady turns until the next image is flashed, if it has arrived. */
  ghost function TurnsToFlash(current: State): nat {
    match current
    case Flash => 1
    case _ => 2 + TurnsToTransfer(current)
  }

  /** How many steady turns until `k` images are flashed. */
  ghost function TurnsTo(s: System, k: nat): nat {
    if k <= |s.flashed| then 0 else 7 * (k - 1 - |s.flashed|) + TurnsToFlash(s.v.current)
  }

  /** With the whole next image there, each turn brings its flash closer. */
  lemma OneTurnOn(b: Build, s: System, input: Input)
    requires Framed(b, s) && Aligned(b, s) && 0 < b.size && Steady(input)
    requires Start(b, |s.flashed| + 1) <= |s.consumed| + |s.v.fifo|
    ensures var s' := Next(b, s, input);
            if s.v.current == Flash
            then |s'.flashed| == |s.flashed| + 1 && TurnsToFlash(s'.v.current) <= 7
            else |s'.flashed| == |s.flashed| && TurnsToFlash(s'.v.current) < TurnsToFlash(s.v.current)
  {
    NextStart(b, |s.flashed|);
    hide Start;
  }

  lemma StartGrows(b: Build, k: nat, m: nat)
    requires k <= m
    ensures Start(b, k) <= Start(b, m)
  {
    assert (m - k) * b.size >= 0;
    assert m * b.size == k * b.size + (m - k) * b.size;
  }

  lemma OneTurnLess(b: Build, run: Run, n: nat, k: nat)
    requires IsRun(b, run) && Calm(run) && n < |run.inputs| && 0 < b.size && Steady(run.inputs[n])
    requires k * b.size <= |Arrived(run.inputs[..n])|
    ensures TurnsTo(run.states[n + 1], k) <= if TurnsTo(run.states[n], k) == 0 then 0 else TurnsTo(run.states[n], k) - 1
  {
    var s, s' := run.states[n], run.states[n + 1];
    RunFrames(b, run, n);
    CalmRun(b, run, n);
    assert StepAt(b, run, n);
    FlashedStay(b, s, run.inputs[n]);
    if |s.flashed| < k {
      StartGrows(b, |s.flashed| + 1, k);
      assert Start(b, k) == k * b.size;
      hide Framed, Windowed, Aligned, Next, Start, Calm, TurnsToFlash;
      assert |s.consumed| + |s.v.fifo| == |s.consumed + s.v.fifo|;
      OneTurnOn(b, s, run.inputs[n]);
    }
  }

  lemma FlashedStay(b: Build, s: System, input: Input)
    requires s.v.received <= b.size == |s.v.bitstream|
    ensures s.flashed <= Next(b, s, input).flashed
  {
  }

  lemma ArrivedGrows(inputs: seq<Input>, n: nat)
    requires n < |inputs|
    ensures Arrived(inputs[..n]) <= Arrived(inputs[..n + 1])
  {
    assert inputs[..n + 1][..n] == inputs[..n];
  }

  lemma {:induction false} FlashesWithin(b: Build, run: Run, n: nat, m: nat, k: nat)
    requires IsRun(b, run) && Calm(run) && 0 < b.size && SteadyFrom(run, n, m)
    requires k * b.size <= |Arrived(run.inputs[..n])| && n + TurnsTo(run.states[n], k) <= m
    ensures k <= |run.states[m].flashed|
    decreases m - n
  {
    if n < m {
      hide IsRun, Calm;
      OneTurnLess(b, run, n, k);
      ArrivedGrows(run.inputs, n);
      FlashesWithin(b, run, n + 1, m, k);
    }
  }

  /** Once the bytes of `k` images have arrived, seven connected turns for each are enough to flash them. */
  lemma ArrivedIsFlashed(b: Build, run: Run, n: nat, m: nat, k: nat)
    requires IsRun(b, run) && Calm(run) && 0 < b.size && SteadyFrom(run, n, m)
    requires k * b.size <= |Arrived(run.inputs[..n])| && n + 7 * k <= m
    ensures k <= |run.states[m].flashed|
  {
    assert TurnsToFlash(run.states[n].v.current) <= 7;
    FlashesWithin(b, run, n, m, k);
  }

  lemma SteadyShorter(run: Run, n: nat, m: nat, l: nat)
    requires SteadyFrom(run, n, m) && n <= l <= m
    ensures SteadyFrom(run, n, l)
  {
  }

  /** The worker's files, once all their bytes have arrived and the board had seven connected turns for each,
      are flashed: all of them, each whole, in order, and nothing else. */
  lemma FilesAreFlashed(b: Build, run: Run, n: nat, m: nat, files: seq<seq<Byte>>)
    requires IsRun(b, run) && Calm(run) && 0 < b.size && SteadyFrom(run, n, m)
    requires OfSize(files, b.size) && Arrived(run.inputs[..n]) == Arrived(run.inputs[..m]) == Concat(files)
    requires n + 7 * |files| <= m
    ensures run.states[m].flashed == files
  {
    FilesLength(files, b.size);
    FilesArrive(b, run, m, files);
    hide IsRun, Calm, OfSize, Concat, Arrived;
    ArrivedIsFlashed(b, run, n, m, |files|);
  }

  /** Samples are taken right after a flash, by the firmware that takes samples and by no other. */
  lemma SamplesAfterFlash(b: Build, run: Run, n: nat)
    requires IsRun(b, run) && n < |run.inputs|
    ensures run.states[n + 1].v.current == SampleAdc <==> b.samples && run.states[n].v.current == Flash
  {
    assert StepAt(b, run, n);
  }

  /** Whatever happens, bytes only move from the queue to the image; a disconnect that empties the queue
      loses what had arrived by then and was not read, and nothing else is ever lost. */
  lemma BytesMove(b: Build, run: Run, n: nat)
    requires IsRun(b, run) && n < |run.inputs|
    ensures var s, input := run.states[n], run.inputs[n];
            run.states[n + 1].consumed + run.states[n + 1].v.fifo ==
            s.consumed + (if input.cleared && !input.connected then [] else s.v.fifo) + input.arrived
  {
    RunFrames(b, run, n);
    assert StepAt(b, run, n);
    NextStreams(b, run.states[n], run.inputs[n]);
  }

  // ---------------------------------------------------------------- broken transfers

  /** In turn `m` a transfer is broken off: USB is gone, or the watchdog runs out before the image is
      complete. */
  ghost predicate BreaksOff(run: Run, m: nat)
    requires m < |run.inputs| && m + 1 < |run.states|
  {
    && run.states[m].v.current == Transfer
    && (!run.inputs[m].connected || (run.inputs[m].timedOut && run.states[m + 1].v.current != Flash))
  }

  /** From image number `k` on, no image holds a byte that was read before position `c`. */
  ghost predicate Afresh(s: System, k: nat, c: nat) {
    && c <= |s.consumed| && k <= |s.starts|
    && (forall j | k <= j < |s.starts| :: c <= s.starts[j])
    && (s.v.current == Flash || (s.v.current == Transfer && s.v.previous == Transfer) ==> c <= s.entry)
  }

  lemma StaysFresh(b: Build, s: System, input: Input, k: nat, c: nat)
    requires Framed(b, s) && Afresh(s, k, c)
    ensures Afresh(Next(b, s, input), k, c)
  {
    ReadsForward(b, s, input);
    hide Framed;
  }

  lemma BreakIsFresh(b: Build, run: Run, m: nat)
    requires IsRun(b, run) && m < |run.inputs| && BreaksOff(run, m)
    ensures Afresh(run.states[m + 1], |run.states[m + 1].starts|, |run.states[m + 1].consumed|)
    ensures run.states[m + 1].v.current != Transfer && run.states[m + 1].v.current != Flash
  {
    assert StepAt(b, run, m);
  }

  lemma {:induction false} FreshFrom(b: Build, run: Run, m: nat, n: nat)
    requires IsRun(b, run) && m < n < |run.states| && BreaksOff(run, m)
    ensures Afresh(run.states[n], |run.states[m + 1].starts|, |run.states[m + 1].consumed|)
    decreases n
  {
    hide Afresh, BreaksOff, Next, Init;
    if n == m + 1 {
      BreakIsFresh(b, run, m);
    } else {
      FreshFrom(b, run, m, n - 1);
      RunFrames(b, run, n - 1);
      assert StepAt(b, run, n - 1);
      StaysFresh(b, run.states[n - 1], run.inputs[n - 1], |run.states[m + 1].starts|, |run.states[m + 1].consumed|);
    }
  }

  /** A transfer that was broken off is dropped: it ends at once, and every image flashed later was read,
      from its first byte on, after that. */
  lemma BrokenIsDropped(b: Build, run: Run, m: nat, n: nat, k: nat)
    requires IsRun(b, run) && m < n < |run.states| && BreaksOff(run, m)
    requires |run.states[m + 1].flashed| <= k < |run.states[n].flashed|
    ensures run.states[m + 1].v.current != Transfer
    ensures |run.states[n].starts| == |run.states[n].flashed|
    ensures |run.states[m + 1].consumed| <= run.states[n].starts[k]
  {
    BreakIsFresh(b, run, m);
    FreshFrom(b, run, m, n);
    RunFrames(b, run, n);
    RunFrames(b, run, m + 1);
  }
}
