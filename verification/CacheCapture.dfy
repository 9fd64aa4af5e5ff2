/**
 The capture protocol around the scanner (internal/cluster/cache.go): the calling
 goroutine, the scanner goroutine and a one-place channel between them, with
 cancellation and stream input arbitrary. A `select` with several ready cases may
 take any of them.
 */
module CacheCapture {
  import opened Prelude
  import opened CacheScan
  import CacheDump

  datatype Scheduler = Scheduler(namespace: string, name: string, uid: string)

  predicate SameScheduler(left: Scheduler, right: Scheduler) {
    && left.namespace == right.namespace && left.name == right.name
    && (left.uid == "" || right.uid == "" || left.uid == right.uid)
  }

  datatype Ending =
    | StartCancelled
    | DoneBeforeSignal(result: CaptureResult)
    | RecheckFailed
    | LeaderChanged
    | SignalFailed
    | Cancelled(partial: Option<CaptureResult>)
    | StreamFailed(result: CaptureResult)
    | SchemaFailed(result: CaptureResult)
    | Captured(result: CaptureResult)

  datatype Main = Opening | Polling | Rechecking | Signalling | Awaiting | Draining | Returned(ending: Ending)

  datatype Scanner = NotReading | Reading | Sending(result: CaptureResult) | Exited

  datatype State = State(
    leader: Scheduler,
    main: Main,
    scanner: Scanner,
    channel: Option<CaptureResult>,
    started: bool,
    cancelled: bool,
    closed: bool,
    // History: what the scanner produced, what the poll and the recheck saw, how often the signal went out.
    produced: Option<CaptureResult>,
    pollFoundNothing: bool,
    rechecked: Option<Scheduler>,
    signals: nat,
    signalAccepted: bool)

  predicate Init(s: State) {
    s == State.State(s.leader, Opening, NotReading, None, false, s.cancelled, false, None, false, None, 0, false)
  }

  ghost predicate ScanOutcome(r: CaptureResult) {
    exists lines, readFailed :: r == Scan(START, lines, readFailed)
  }

  ghost predicate ScannerNext(s: State, t: State) {
    || (s.scanner == NotReading && t == s.(scanner := Reading, started := true))
    || (s.scanner == Reading && t.scanner.Sending? && ScanOutcome(t.scanner.result)
        && t == s.(scanner := t.scanner, produced := Some(t.scanner.result)))
    || (s.scanner.Sending? && s.channel == None && t == s.(scanner := Exited, channel := Some(s.scanner.result)))
  }

  predicate CancelNext(s: State, t: State) {
    t == s.(cancelled := true)
  }

  function Return(s: State, ending: Ending): State {
    s.(main := Returned(ending), closed := true)
  }

  function EndingOf(r: CaptureResult): Ending {
    if r.error.Some? then StreamFailed(r) else if r.parseFailed then SchemaFailed(r) else Captured(r)
  }

  predicate OpenNext(s: State, t: State) {
    && s.main == Opening
    && ((s.started && t == s.(main := Polling)) || (s.cancelled && t == Return(s, StartCancelled)))
  }

  predicate PollNext(s: State, t: State) {
    && s.main == Polling
    && if s.channel.Some? then t == Return(s.(channel := None), DoneBeforeSignal(s.channel.value))
       else t == s.(main := Rechecking, pollFoundNothing := true)
  }

  predicate RecheckNext(s: State, t: State) {
    && s.main == Rechecking
    && (|| t == Return(s, RecheckFailed)
        || (t.rechecked.Some? &&
            if SameScheduler(s.leader, t.rechecked.value) then t == s.(main := Signalling, rechecked := t.rechecked)
            else t == Return(s.(rechecked := t.rechecked), LeaderChanged)))
  }

  predicate SignalNext(s: State, t: State) {
    && s.main == Signalling
    && var sent := s.(signals := s.signals + 1);
       t == sent.(main := Awaiting, signalAccepted := true) || t == Return(sent, SignalFailed)
  }

  predicate AwaitNext(s: State, t: State) {
    && s.main == Awaiting
    && (|| (s.channel.Some? && t == Return(s.(channel := None), EndingOf(s.channel.value)))
        || (s.cancelled && t == s.(main := Draining, closed := true)))
  }

  predicate DrainNext(s: State, t: State) {
    && s.main == Draining
    && (|| (s.channel.Some? && t == Return(s.(channel := None), Cancelled(s.channel)))
        || t == Return(s, Cancelled(None)))
  }

  predicate MainNext(s: State, t: State) {
    || OpenNext(s, t) || PollNext(s, t) || RecheckNext(s, t)
    || SignalNext(s, t) || AwaitNext(s, t) || DrainNext(s, t)
  }

  ghost predicate Next(s: State, t: State) {
    ScannerNext(s, t) || CancelNext(s, t) || MainNext(s, t)
  }

  ghost predicate StepAt(run: seq<State>, i: nat) {
    i + 1 < |run| && Next(run[i], run[i + 1])
  }

  /** Any interleaving, of any length, including steps of the scanner after the caller has returned. */
  ghost predicate Interleaving(run: seq<State>) {
    && run != [] && Init(run[0])
    && forall i: nat | i + 1 < |run| :: StepAt(run, i)
  }

  // ---- Invariant -----------------------------------------------------------

  /** Where a received result must have come from. */
  predicate Received(s: State, r: CaptureResult) {
    s.produced == Some(r) && s.scanner == Exited && s.channel == None
  }

  predicate EndingFits(s: State, e: Ending) {
    match e
    case StartCancelled => s.cancelled && s.signals == 0
    case DoneBeforeSignal(r) => Received(s, r) && s.signals == 0
    case RecheckFailed => s.signals == 0
    case LeaderChanged => s.signals == 0 && s.rechecked.Some? && !SameScheduler(s.leader, s.rechecked.value)
    case SignalFailed => s.signals == 1 && !s.signalAccepted
    case Cancelled(partial) =>
      s.cancelled && s.signals == 1 && s.signalAccepted && (partial.Some? ==> Received(s, partial.value))
    case StreamFailed(r) => Received(s, r) && s.signals == 1 && s.signalAccepted && r.error.Some?
    case SchemaFailed(r) => Received(s, r) && s.signals == 1 && s.signalAccepted && r.error == None && r.parseFailed
    case Captured(r) => Received(s, r) && s.signals == 1 && s.signalAccepted && r.error == None && !r.parseFailed
  }

  ghost predicate Inv(s: State) {
    // The scanner's result goes through the channel at most once.
    && (s.scanner == NotReading <==> !s.started)
    && (s.scanner.NotReading? || s.scanner.Reading? ==> s.produced == None)
    && (s.scanner.Sending? ==> s.produced == Some(s.scanner.result))
    && (s.scanner != Exited ==> s.channel == None)
    && (s.channel.Some? ==> s.produced == s.channel)
    && (s.produced.Some? ==> ScanOutcome(s.produced.value))
    // Nothing is signalled before reading began, the poll came up empty and the leader was confirmed.
    && (s.main != Opening && s.main != Returned(StartCancelled) ==> s.started)
    && (s.signals > 0 || s.main == Signalling ==>
          && s.started && s.pollFoundNothing
          && s.rechecked.Some? && SameScheduler(s.leader, s.rechecked.value))
    && (s.main == Rechecking ==> s.pollFoundNothing)
    && (s.main.Opening? || s.main.Polling? || s.main.Rechecking? || s.main.Signalling? ==>
          s.signals == 0 && !s.signalAccepted && !s.closed)
    && (s.main.Awaiting? || s.main.Draining? ==> s.signals == 1 && s.signalAccepted)
    && (s.main.Draining? ==> s.cancelled && s.closed)
    && (s.main.Returned? ==> s.closed && EndingFits(s, s.main.ending))
    // A result leaves the channel only by being received.
    && (s.scanner == Exited && s.channel == None ==> s.main.Returned?)
  }

  lemma ScannerKeepsInv(s: State, t: State)
    requires Inv(s) && (ScannerNext(s, t) || CancelNext(s, t))
    ensures Inv(t)
  {
  }

  lemma EarlyStepKeepsInv(s: State, t: State)
    requires Inv(s) && (OpenNext(s, t) || PollNext(s, t) || RecheckNext(s, t))
    ensures Inv(t)
  {
  }

  lemma LateStepKeepsInv(s: State, t: State)
    requires Inv(s) && (SignalNext(s, t) || AwaitNext(s, t) || DrainNext(s, t))
    ensures Inv(t)
  {
  }

  lemma StepKeepsInv(s: State, t: State)
    requires Inv(s) && Next(s, t)
    ensures Inv(t)
  {
    if ScannerNext(s, t) || CancelNext(s, t) {
      ScannerKeepsInv(s, t);
    } else if OpenNext(s, t) || PollNext(s, t) || RecheckNext(s, t) {
      EarlyStepKeepsInv(s, t);
    } else {
      LateStepKeepsInv(s, t);
    }
  }

  lemma {:induction false} InvHolds(run: seq<State>, i: nat)
    requires Interleaving(run) && i < |run|
    ensures Inv(run[i])
  {
    if i > 0 {
      InvHolds(run, i - 1);
      assert StepAt(run, i - 1);
      StepKeepsInv(run[i - 1], run[i]);
    }
  }

  // ---- Main results --------------------------------------------------------

  /**
   In every interleaving the signal goes out at most once, and only in a step taken
   after the first read began, after the poll found no finished scan and after the
   leader was confirmed.
   */
  lemma SignalIsGuarded(run: seq<State>, i: nat)
    requires Interleaving(run) && i < |run|
    ensures run[i].signals <= 1
    ensures i + 1 < |run| && run[i + 1].signals != run[i].signals ==>
      && run[i].signals == 0 && run[i + 1].signals == 1
      && run[i].started && run[i].pollFoundNothing
      && run[i].rechecked.Some?
      && var before, now := run[i].leader, run[i].rechecked.value;
      && now.namespace == before.namespace && now.name == before.name
      && (now.uid != "" && before.uid != "" ==> now.uid == before.uid)
  {
    InvHolds(run, i);
    if i + 1 < |run| {
      assert StepAt(run, i);
    }
  }

  /**
   Every exit has closed the stream; success means an accepted signal and a complete, well-formed
   dump, whichever came first.
   */
  lemma ReturnIsSound(run: seq<State>, i: nat)
    requires Interleaving(run) && i < |run| && run[i].main.Returned?
    ensures run[i].closed
    ensures run[i].main.ending.Captured? ==>
      var r := run[i].main.ending.result;
      && run[i].signals == 1 && run[i].signalAccepted
      && run[i].produced == Some(r) && r.error == None && !r.parseFailed
      && exists lines, readFailed :: r == Scan(START, lines, readFailed) && SawAllMarkers(lines)
  {
    InvHolds(run, i);
    if run[i].main.ending.Captured? {
      var r := run[i].main.ending.result;
      var lines, readFailed :| r == Scan(START, lines, readFailed);
      CompleteScanSawAllMarkers([], START, lines, readFailed);
      assert [] + lines == lines;
    }
  }

  /** A dump without an error and without a line that fails to parse, and all that its lines say. */
  ghost predicate WholeDump(lines: seq<Line>, e: nat, s: nat, m: nat, r: CaptureResult) {
    && CacheDump.Completed(lines, e) && CacheDump.Sections(lines, s, m, e) && !CacheDump.SomeFails(lines, s, m, e)
    && CacheDump.IsNodes(lines, s, m, r.nodes) && CacheDump.IsJobs(lines, m, e, r.jobs)
  }

  /** A captured result holds every node and job of its dump. */
  lemma CapturedDumpIsWhole(run: seq<State>, i: nat)
    requires Interleaving(run) && i < |run| && run[i].main.Returned? && run[i].main.ending.Captured?
    ensures exists lines, e: nat, s: nat, m: nat :: WholeDump(lines, e, s, m, run[i].main.ending.result)
  {
    InvHolds(run, i);
    var r := run[i].main.ending.result;
    var lines, readFailed :| r == Scan(START, lines, readFailed);
    CacheDump.ScanMeans(lines, readFailed);
    var e: nat :| CacheDump.Completed(lines, e);
    var s: nat, m: nat :| CacheDump.Sections(lines, s, m, e);
    assert WholeDump(lines, e, s, m, r);
  }

  predicate SendsSignal(run: seq<State>, k: nat) {
    k + 1 < |run| && run[k].signals == 0 && run[k + 1].signals == 1
  }

  /** The scanner reaches the end of a dump, or of the stream, in this step. */
  predicate FinishesScan(run: seq<State>, p: nat, r: CaptureResult) {
    p + 1 < |run| && run[p].produced == None && run[p + 1].produced == Some(r)
  }

  /** What was returned at `i` was still being read when the signal went out at `k`. */
  ghost predicate FinishedAfter(run: seq<State>, k: nat, i: nat, r: CaptureResult) {
    exists p :: k < p < i && FinishesScan(run, p, r)
  }

  lemma StepKeepsHistory(s: State, t: State)
    requires Inv(s) && Next(s, t)
    ensures s.produced.Some? ==> t.produced == s.produced
    ensures s.signals <= t.signals && (t.signals != s.signals ==> t.produced == s.produced)
  {
    if ScannerNext(s, t) || CancelNext(s, t) {
    } else if OpenNext(s, t) || PollNext(s, t) || RecheckNext(s, t) {
    } else {
    }
  }

  lemma RunStep(run: seq<State>, i: nat)
    requires Interleaving(run) && i + 1 < |run|
    ensures run[i].produced.Some? ==> run[i + 1].produced == run[i].produced
    ensures run[i].signals <= run[i + 1].signals <= 1
    ensures run[i + 1].signals != run[i].signals ==> run[i + 1].produced == run[i].produced
  {
    InvHolds(run, i);
    InvHolds(run, i + 1);
    assert StepAt(run, i);
    StepKeepsHistory(run[i], run[i + 1]);
  }

  /** A finished scan is never replaced. */
  lemma {:induction false} ProducedStays(run: seq<State>, k: nat, i: nat)
    requires Interleaving(run) && k <= i < |run|
    ensures run[k].produced.Some? ==> run[i].produced == run[k].produced
  {
    if k < i {
      ProducedStays(run, k, i - 1);
      RunStep(run, i - 1);
    }
  }

  lemma {:induction false} FinishStep(run: seq<State>, k: nat, i: nat, r: CaptureResult) returns (p: nat)
    requires Interleaving(run) && k < i < |run| && run[k].produced == None && run[i].produced == Some(r)
    ensures k <= p < i && FinishesScan(run, p, r)
  {
    p := i - 1;
    if run[p].produced.Some? {
      RunStep(run, p);
      p := FinishStep(run, k, p, r);
    }
  }

  lemma {:induction false} SignalStep(run: seq<State>, i: nat) returns (k: nat)
    requires Interleaving(run) && i < |run| && run[i].signals == 1
    ensures k < i && SendsSignal(run, k)
  {
    k := i - 1;
    RunStep(run, k);
    if run[k].signals == 1 {
      k := SignalStep(run, k);
    }
  }

  /** Before the caller returns, the scanner has finished unless it is still reading. */
  lemma ReadingHasNotFinished(s: State)
    requires Inv(s) && s.started && !s.main.Returned?
    ensures s.scanner == Reading <==> s.produced == None
  {
  }

  /**
   A captured dump was finished after the signal exactly when the scanner was still
   reading in the state that sent the signal. The poll does not decide this: it
   sees what the scanner has handed over, and it looks before the leader is confirmed.
   */
  lemma CaptureAnswersSignalIff(run: seq<State>, i: nat) returns (k: nat)
    requires Interleaving(run) && i < |run| && run[i].main.Returned? && run[i].main.ending.Captured?
    ensures k < i && SendsSignal(run, k)
    ensures FinishedAfter(run, k, i, run[i].main.ending.result) <==> run[k].scanner == Reading
  {
    InvHolds(run, i);
    var r := run[i].main.ending.result;
    k := SignalStep(run, i);
    RunStep(run, k);
    InvHolds(run, k);
    SignalIsSentBeforeReturn(run, k);
    ReadingHasNotFinished(run[k]);
    if run[k].produced == None {
      var p := FinishStep(run, k + 1, i, r);
    } else {
      forall p | k < p < i ensures !FinishesScan(run, p, r) {
        ProducedStays(run, k, p);
      }
    }
  }

  lemma SignalIsSentBeforeReturn(run: seq<State>, k: nat)
    requires Interleaving(run) && SendsSignal(run, k)
    ensures run[k].main == Signalling && run[k].started
  {
    InvHolds(run, k);
    assert StepAt(run, k);
  }

  /** A dump that ends between the empty poll and the signal is taken for the answer. */
  function StaleRun(leader: Scheduler, r: CaptureResult): seq<State> {
    var s0 := State.State(leader, Opening, NotReading, None, false, false, false, None, false, None, 0, false);
    var s1 := s0.(scanner := Reading, started := true);
    var s2 := s1.(main := Polling);
    var s3 := s2.(main := Rechecking, pollFoundNothing := true);
    var s4 := s3.(scanner := Sending(r), produced := Some(r));
    var s5 := s4.(scanner := Exited, channel := Some(r));
    var s6 := s5.(main := Signalling, rechecked := Some(leader));
    var s7 := s6.(signals := 1, main := Awaiting, signalAccepted := true);
    [s0, s1, s2, s3, s4, s5, s6, s7, Return(s7.(channel := None), Captured(r))]
  }

  lemma OlderDumpCanBeTaken(leader: Scheduler, r: CaptureResult)
    requires ScanOutcome(r) && r.error == None && !r.parseFailed
    ensures var run := StaleRun(leader, r);
      && Interleaving(run) && run[8].main == Returned(Captured(r))
      && FinishesScan(run, 3, r) && SendsSignal(run, 6) && !FinishedAfter(run, 6, 8, r)
  {
    var run := StaleRun(leader, r);
    assert ScannerNext(run[0], run[1]) && OpenNext(run[1], run[2]) && PollNext(run[2], run[3]);
    assert ScannerNext(run[3], run[4]) && ScannerNext(run[4], run[5]);
    assert RecheckNext(run[5], run[6]) && SignalNext(run[6], run[7]) && AwaitNext(run[7], run[8]);
    forall i: nat | i + 1 < |run| ensures StepAt(run, i) {
      assert i == 0 || i == 1 || i == 2 || i == 3 || i == 4 || i == 5 || i == 6 || i == 7;
    }
  }

  /** The scanner's one send always finds room, even after the caller is gone, and nothing is received twice. */
  lemma ScannerNeverBlocks(run: seq<State>, i: nat)
    requires Interleaving(run) && i < |run|
    ensures run[i].scanner.Sending? ==> run[i].channel == None
    ensures run[i].scanner.Sending? ==> exists t :: ScannerNext(run[i], t)
    ensures run[i].scanner == Exited ==> forall t :: !ScannerNext(run[i], t)
  {
    InvHolds(run, i);
    var s := run[i];
    if s.scanner.Sending? {
      assert ScannerNext(s, s.(scanner := Exited, channel := Some(s.scanner.result)));
    }
  }

  function Remaining(m: Main): nat {
    match m
    case Opening => 6
    case Polling => 5
    case Rechecking => 4
    case Signalling => 3
    case Awaiting => 2
    case Draining => 1
    case Returned(_) => 0
  }

  lemma EarlyCallerStep(s: State, t: State)
    requires OpenNext(s, t) || PollNext(s, t) || RecheckNext(s, t)
    ensures Remaining(t.main) < Remaining(s.main) <= 6
  {
    if RecheckNext(s, t) {
      assert t.main == Signalling || t.main.Returned?;
    }
  }

  lemma LateCallerStep(s: State, t: State)
    requires SignalNext(s, t) || AwaitNext(s, t) || DrainNext(s, t)
    ensures Remaining(t.main) < Remaining(s.main) <= 6
  {
    if SignalNext(s, t) {
      assert t.main == Awaiting || t.main.Returned?;
    } else if AwaitNext(s, t) {
      assert t.main == Draining || t.main.Returned?;
    }
  }

  /** The caller takes at most six steps. */
  lemma CallerStepsAreBounded(s: State, t: State)
    requires MainNext(s, t)
    ensures Remaining(t.main) < Remaining(s.main) <= 6
  {
    if OpenNext(s, t) || PollNext(s, t) || RecheckNext(s, t) {
      EarlyCallerStep(s, t);
    } else {
      LateCallerStep(s, t);
    }
  }

  /** A step the caller can take once it is cancelled, whatever the scanner does. */
  function WayOut(s: State): State {
    match s.main
    case Opening => Return(s, StartCancelled)
    case Polling =>
      if s.channel.Some? then Return(s.(channel := None), DoneBeforeSignal(s.channel.value))
      else s.(main := Rechecking, pollFoundNothing := true)
    case Rechecking => Return(s, RecheckFailed)
    case Signalling => Return(s.(signals := s.signals + 1), SignalFailed)
    case Awaiting => s.(main := Draining, closed := true)
    case Draining => Return(s, Cancelled(None))
    case Returned(_) => s
  }

  /** Once cancelled the caller is never stuck before it has returned. */
  lemma CancelledCallerCanMove(s: State)
    requires s.cancelled && !s.main.Returned?
    ensures exists t :: MainNext(s, t)
  {
    assert MainNext(s, WayOut(s));
  }

  // ---- The capture lock ----------------------------------------------------

  datatype Call = Waiting | Inside(state: State) | Left(state: State)

  datatype Callers = Callers(holder: Option<nat>, calls: map<nat, Call>)

  predicate CallersInit(c: Callers) {
    c.holder == None && forall i :: i in c.calls ==> c.calls[i] == Waiting
  }

  ghost predicate CallersNext(c: Callers, d: Callers) {
    exists i :: i in c.calls && CallNext(c, d, i)
  }

  ghost predicate CallNext(c: Callers, d: Callers, i: nat)
    requires i in c.calls
  {
    match c.calls[i]
    case Waiting =>
      c.holder == None && exists s :: Init(s) && d == Callers(Some(i), c.calls[i := Inside(s)])
    case Inside(s) =>
      || (s.main.Returned? && d == Callers(None, c.calls[i := Left(s)]))
      || exists t :: Next(s, t) && d == c.(calls := c.calls[i := Inside(t)])
    case Left(s) =>
      // Only the scanner of a finished call may still move.
      exists t :: ScannerNext(s, t) && d == c.(calls := c.calls[i := Left(t)])
  }

  ghost predicate CallersRun(run: seq<Callers>) {
    && run != [] && CallersInit(run[0])
    && forall i :: 0 <= i < |run| - 1 ==> CallersNext(run[i], run[i + 1])
  }

  ghost predicate Exclusive(c: Callers) {
    && (forall i :: i in c.calls && c.calls[i].Inside? ==> c.holder == Some(i))
    && (forall i :: i in c.calls && c.calls[i].Left? ==> c.calls[i].state.main.Returned?)
  }

  predicate InsideNow(c: Callers, i: nat) {
    i in c.calls && c.calls[i].Inside?
  }

  function Signals(c: Call): nat {
    if c.Waiting? then 0 else c.state.signals
  }

  predicate SignalsNow(c: Callers, d: Callers, i: nat) {
    i in c.calls && i in d.calls && Signals(d.calls[i]) != Signals(c.calls[i])
  }

  lemma CallKeepsExclusive(c: Callers, d: Callers, i: nat)
    requires Exclusive(c) && i in c.calls && CallNext(c, d, i)
    ensures Exclusive(d)
    ensures forall j :: SignalsNow(c, d, j) ==> j == i && InsideNow(c, i)
  {
  }

  lemma {:induction false} CallersStayExclusive(run: seq<Callers>, n: nat)
    requires CallersRun(run) && n < |run|
    ensures Exclusive(run[n])
  {
    if n > 0 {
      CallersStayExclusive(run, n - 1);
      assert CallersNext(run[n - 1], run[n]);
      var i :| i in run[n - 1].calls && CallNext(run[n - 1], run[n], i);
      CallKeepsExclusive(run[n - 1], run[n], i);
    }
  }

  /** Two captures never overlap: a call that signals is the only one between its lock and its return. */
  lemma CapturesDoNotOverlap(run: seq<Callers>, n: nat)
    requires CallersRun(run) && n < |run|
    ensures forall i, j :: InsideNow(run[n], i) && InsideNow(run[n], j) ==> i == j
    ensures n + 1 < |run| ==> forall i :: SignalsNow(run[n], run[n + 1], i) ==> InsideNow(run[n], i)
  {
    CallersStayExclusive(run, n);
    if n + 1 < |run| {
      assert CallersNext(run[n], run[n + 1]);
      var i :| i in run[n].calls && CallNext(run[n], run[n + 1], i);
      CallKeepsExclusive(run[n], run[n + 1], i);
    }
  }
}
