// Conservation of received bytes: what the TTY gets, what can be lost, and the
// exact conditions under which nothing is.

module ReceiveTheorems {
  import opened Common
  import opened DmaModel
  import opened ReceiveHistory
  import opened UartModel
  import opened UartInvariant
  import opened UartSteps
  import opened UartTheorems

  // ----- order and multiplicity -----

  /** `a` is `b` with some elements removed. */
  ghost predicate Subsequence(a: seq<Byte>, b: seq<Byte>)
    decreases |b|
  {
    || a == []
    || (b != []
        && (Subsequence(a, b[..|b| - 1])
            || (a[|a| - 1] == b[|b| - 1] && Subsequence(a[..|a| - 1], b[..|b| - 1]))))
  }

  lemma {:induction false} KeptIsSubsequence(f: seq<Fate>)
    ensures Subsequence(Kept(f), Bytes(f))
    decreases |f|
  {
    if f != [] {
      var front, last := f[..|f| - 1], f[|f| - 1];
      KeptIsSubsequence(front);
      var b := Bytes(f);
      assert b[..|b| - 1] == Bytes(front);
      if last.how == Delivered {
        var k := Kept(f);
        assert k == Kept(front) + [last.byte];
        assert k[..|k| - 1] == Kept(front);
        assert k[|k| - 1] == b[|b| - 1];
      } else {
        assert Kept(f) == Kept(front) + [] == Kept(front);
      }
    }
  }

  lemma {:induction false} SubsequenceGrows(a: seq<Byte>, b: seq<Byte>, c: seq<Byte>)
    requires Subsequence(a, b)
    ensures Subsequence(a, b + c)
    decreases |c|
  {
    if c == [] {
      assert b + c == b;
    } else {
      SubsequenceGrows(a, b, c[..|c| - 1]);
      assert (b + c)[..|b + c| - 1] == b + c[..|c| - 1];
    }
  }

  /** The delivered bytes are those delivered before the gap and those delivered after it. */
  lemma KeptAround(f: seq<Fate>, at: nat, span: nat)
    requires Settled(f, at, span)
    ensures Kept(f) == Kept(f[..at]) + Kept(f[at + span..])
  {
    var before, middle, after := f[..at], f[at..at + span], f[at + span..];
    assert f == before + (middle + after);
    PickAppend(before, middle + after, Delivered);
    PickAppend(middle, after, Delivered);
    PickNone(middle, Delivered);
  }

  /** The account has as many entries as its counters say. */
  lemma Accounted(log: RxLog)
    requires Honest(log)
    ensures |log.fate| + |log.flight| ==
              |Kept(log.fate)| + log.gapLen + log.eaten + log.reset + |Pick(log.flight, Buffered)|
  {
    PickPartition(log.fate);
    PickPartition(log.flight);
    PickNone(log.fate, Buffered);
    PickNone(log.flight, Delivered);
    PickNone(log.flight, Gap);
  }

  /**
   * In every reachable state the session's arrivals are accounted for in order, one
   * fate each: the TTY got the delivered ones, before and after at most one stretch
   * in which nothing was delivered and which holds every byte that could not be read;
   * those are at most one buffer, and then the channel was given up for good.
   */
  lemma ReceiveInOrder(w: World)
    requires Reachable(w)
    ensures var log := w.port.log;
            && log.arrived == Bytes(log.fate) + Bytes(log.flight) + w.hw.fifo
            && Settled(log.fate, log.gapAt, log.gapSpan) && Pending(log.flight)
            && w.port.tty == Kept(log.fate)
            && w.port.tty == Kept(log.fate[..log.gapAt]) + Kept(log.fate[log.gapAt + log.gapSpan..])
            && Pick(log.flight, Buffered) == InFlight(w.dma)
            && (w.dma.st.rx != Running ==> log.flight == [])
    ensures Subsequence(w.port.tty, w.port.log.arrived)
    ensures var log := w.port.log;
            && log.gapLen == |Pick(log.fate, Gap)|
            && log.eaten == |Pick(log.fate, Eaten)| + |Pick(log.flight, Eaten)|
            && log.reset == |Pick(log.fate, Reset)| + |Pick(log.flight, Reset)|
            && |log.arrived| == |w.port.tty| + log.gapLen + log.eaten + log.reset + |InFlight(w.dma)| + |w.hw.fifo|
    ensures w.port.log.gapLen <= RX_SIZE
    ensures w.port.log.gapLen > 0 ==> w.dma.st.rxFailed && w.dma.st.rx != Running
  {
    ReachableInv(w);
    OrderOfHistory(w.port.log, w.hw.fifo);
    KeptAround(w.port.log.fate, w.port.log.gapAt, w.port.log.gapSpan);
  }

  lemma OrderOfHistory(log: RxLog, fifo: seq<Byte>)
    requires Honest(log)
    ensures var all := Bytes(log.fate) + Bytes(log.flight) + fifo;
            && Subsequence(Kept(log.fate), all)
            && |all| == |Kept(log.fate)| + log.gapLen + log.eaten + log.reset + |Pick(log.flight, Buffered)| + |fifo|
  {
    KeptIsSubsequence(log.fate);
    SubsequenceGrows(Kept(log.fate), Bytes(log.fate), Bytes(log.flight) + fifo);
    assert Bytes(log.fate) + Bytes(log.flight) + fifo == Bytes(log.fate) + (Bytes(log.flight) + fifo);
    Accounted(log);
  }

  lemma CutMiddle(a: seq<Byte>, b: seq<Byte>, c: seq<Byte>, x: seq<Byte>, y: seq<Byte>)
    ensures var all := a + b + c + x + y; a + c + x + y == all[..|a|] + all[|a| + |b|..]
  {
  }

  /** Without stray bytes every entry outside the gap was delivered. */
  lemma OutsideGap(f: seq<Fate>, at: nat, span: nat)
    requires Settled(f, at, span) && Pick(f, Eaten) == [] && Pick(f, Reset) == []
    ensures span == |Pick(f, Gap)|
    ensures Kept(f) == Bytes(f[..at]) + Bytes(f[at + span..])
  {
    PickPartition(f);
    PickNone(f, Buffered);
    KeptAround(f, at, span);
    PickShort(f[..at], Delivered);
    PickShort(f[at + span..], Delivered);
    GapWithin(f, at, span);
    PickAll(f[..at], Delivered);
    PickAll(f[at + span..], Delivered);
  }

  /** And every one in flight is buffered. */
  lemma AllBuffered(f: seq<Fate>)
    requires Pending(f) && Pick(f, Eaten) == [] && Pick(f, Reset) == []
    ensures Pick(f, Buffered) == Bytes(f)
  {
    PickPartition(f);
    PickNone(f, Delivered);
    PickNone(f, Gap);
    PickAll(f, Buffered);
  }

  lemma BytesInThree(f: seq<Fate>, at: nat, span: nat)
    requires at + span <= |f|
    ensures Bytes(f) == Bytes(f[..at]) + Bytes(f[at..at + span]) + Bytes(f[at + span..])
  {
  }

  lemma CutHistory(f: seq<Fate>, at: nat, span: nat, x: seq<Byte>, y: seq<Byte>)
    requires at + span <= |f|
    ensures var all := Bytes(f) + x + y;
            && |f| <= |all|
            && Bytes(f[..at]) + Bytes(f[at + span..]) + x + y == all[..at] + all[at + span..]
  {
    BytesInThree(f, at, span);
    CutMiddle(Bytes(f[..at]), Bytes(f[at..at + span]), Bytes(f[at + span..]), x, y);
  }

  lemma GapOfHistory(log: RxLog, fifo: seq<Byte>)
    requires Honest(log) && log.eaten == 0 && log.reset == 0
    ensures var all := Bytes(log.fate) + Bytes(log.flight) + fifo;
            && log.gapSpan == log.gapLen
            && log.gapAt + log.gapLen <= |log.fate| <= |all|
            && Kept(log.fate) + Pick(log.flight, Buffered) + fifo
               == all[..log.gapAt] + all[log.gapAt + log.gapLen..]
  {
    OutsideGap(log.fate, log.gapAt, log.gapSpan);
    AllBuffered(log.flight);
    CutHistory(log.fate, log.gapAt, log.gapSpan, Bytes(log.flight), fifo);
  }

  lemma GapWithin(f: seq<Fate>, at: nat, span: nat)
    requires Settled(f, at, span)
    ensures |Pick(f, Gap)| <= span
  {
    var before, middle, after := f[..at], f[at..at + span], f[at + span..];
    assert f == before + (middle + after);
    PickAppend(before, middle + after, Gap);
    PickAppend(middle, after, Gap);
    assert Pick(before, Gap) == [] by {
      PickNone(before, Gap);
    }
    assert Pick(after, Gap) == [] by {
      PickNone(after, Gap);
    }
    PickShort(middle, Gap);
  }

  /** Unless a byte was taken unread, the TTY has everything but one contiguous gap. */
  lemma OneGap(w: World)
    requires Reachable(w) && w.port.log.eaten == 0 && w.port.log.reset == 0
    ensures var log := w.port.log;
            && log.gapAt + log.gapLen <= |log.fate| <= |log.arrived|
            && w.port.tty + InFlight(w.dma) + w.hw.fifo
               == log.arrived[..log.gapAt] + log.arrived[log.gapAt + log.gapLen..]
  {
    ReachableInv(w);
    GapOfHistory(w.port.log, w.hw.fifo);
  }

  /** Nothing is lost exactly when no gap was opened and no byte eaten or reset. */
  lemma ConservedIff(w: World)
    requires Reachable(w)
    ensures w.port.log.arrived == w.port.tty + InFlight(w.dma) + w.hw.fifo
       <==> w.port.log.gapLen == 0 && w.port.log.eaten == 0 && w.port.log.reset == 0
  {
    ReceiveInOrder(w);
    if w.port.log.gapLen == 0 && w.port.log.eaten == 0 && w.port.log.reset == 0 {
      OneGap(w);
    }
  }

  // ----- which steps lose bytes -----

  /** A receive timeout whose section may touch the FIFO but reads nothing through `receive`. */
  predicate Dummy(w: World, s: Step) {
    && s.Irq? && s.id == 12 && !PioRead(w.hw, s.budget, s.o.marker)
    && (!w.dma.available || w.dma.st.rx == Idle
        || (w.dma.st.rx == Stopping && w.dma.st.rxCpuSafe)
        || (w.dma.st.rx == Running && s.o.pause.Stable?))
  }

  /** The dummy read finds the interrupt budget used up while a byte waits. */
  predicate Starved(w: World, s: Step) {
    Dummy(w, s) && w.hw.fifo != []
  }

  /** A byte arrives after `receive` saw an empty FIFO and before the dummy read. */
  predicate Late(w: World, s: Step) {
    Dummy(w, s) && w.hw.fifo == [] && s.o.late.Some?
  }

  /** How many bytes a retried LCR write throws away by resetting the FIFO. */
  function Discards(w: World, s: Step): nat {
    if s.FifoReset? then |w.hw.fifo| else 0
  }

  /** The data register read of a retried LCR write finds a byte. */
  predicate Skips(w: World, s: Step) {
    s.RbrRead? && w.hw.fifo != []
  }

  /** The step asks the DMA engine for its partial receive buffer. */
  predicate Flushes(w: World, s: Step) {
    && w.dma.available && w.dma.st.rx == Running
    && (s.StopRx? || s.CfgBegin? || (s.Irq? && (s.id == 6 || s.id == 12)) || (s.WorkPrepare? && w.dma.st.active))
  }

  /** The engine refuses (or reports an impossible residue) while its buffer holds bytes. */
  predicate FailedPause(w: World, s: Step) {
    Flushes(w, s) && !s.o.pause.Stable? && w.dma.rx.mem != []
  }

  /** The losses a step adds are those announced above, and arrivals are never taken back. */
  ghost predicate LosesOnly(w: World, s: Step, log': RxLog) {
    && log'.eaten == w.port.log.eaten + (if Starved(w, s) || Late(w, s) || Skips(w, s) then 1 else 0)
    && log'.reset == w.port.log.reset + Discards(w, s)
    && log'.gapLen == w.port.log.gapLen + (if FailedPause(w, s) then |w.dma.rx.mem| else 0)
    && IsPrefix(w.port.log.arrived, log'.arrived)
  }

  ghost predicate SameLosses(log: RxLog, log': RxLog) {
    log'.eaten == log.eaten && log'.reset == log.reset && log'.gapLen == log.gapLen && log'.arrived == log.arrived
  }

  lemma StartTxLog(w: World, o: Choice)
    ensures StartTxIn(w, o).port.log == w.port.log
  {
  }

  lemma FlushLosses(d: Dma, p: Port, schedule: bool, pause: Pause, keep: bool)
    requires d.st.rx == Running && d.available ==> p.log.gapLen == 0
    ensures var (d', p', safe) := RxFlush(d, p, schedule, pause, keep);
            && p'.log.eaten == p.log.eaten && p'.log.reset == p.log.reset && p'.log.arrived == p.log.arrived
            && p'.log.gapLen == p.log.gapLen
               + (if d.available && d.st.rx == Running && !pause.Stable? then |d.rx.mem| else 0)
            && (d.st.rx == Running && d.available && !d.st.rxCpuSafe ==> safe == pause.Stable?)
            && (d.st.rx == Stopping && d.available ==> safe == d.st.rxCpuSafe)
            && (d.st.rx == Idle || !d.available ==> safe)
  {
  }

  lemma PioLosses(w: World, budget: nat)
    ensures SameLosses(w.port.log, PioIn(w, budget).port.log)
  {
  }

  lemma TimeoutLosses(w: World, budget: nat, marker: bool, late: Option<Byte>)
    ensures var log, log' := w.port.log, TimeoutPio(w, budget, marker, late).port.log;
            && log'.reset == log.reset && log'.gapLen == log.gapLen && IsPrefix(log.arrived, log'.arrived)
            && log'.eaten == log.eaten
               + (if !PioRead(w.hw, budget, marker) && (w.hw.fifo != [] || late.Some?) then 1 else 0)
  {
  }

  lemma IrqDataLosses(w: World, budget: nat, o: Choice)
    ensures SameLosses(w.port.log, Dispatch(w, 4, budget, o).port.log)
  {
  }

  lemma IrqErrorLosses(w: World, budget: nat, o: Choice)
    requires Inv(w)
    ensures LosesOnly(w, Irq(6, budget, o), Dispatch(w, 6, budget, o).port.log)
  {
    FlushLosses(w.dma.(st := w.dma.st.(rxFailed := true)), w.port, true, o.pause, o.keep);
    PioLosses(Moved(w, RxError(w.dma, w.port, o.pause, o.keep)), budget);
  }

  lemma IrqTimeoutLosses(w: World, budget: nat, o: Choice)
    requires Inv(w)
    ensures LosesOnly(w, Irq(12, budget, o), Dispatch(w, 12, budget, o).port.log)
  {
    FlushLosses(w.dma, w.port, true, o.pause, o.keep);
    var r := RxFlush(w.dma, w.port, true, o.pause, o.keep);
    TimeoutLosses(Moved(w, r), budget, o.marker, o.late);
    assert Moved(w, r).hw == w.hw;
  }

  lemma IrqLosses(w: World, s: Step)
    requires Inv(w) && Enabled(w, s) && s.Irq?
    ensures LosesOnly(w, s, Next(w, s).port.log)
  {
    if s.id == 2 {
      StartTxLog(w, s.o);
    } else if s.id == 4 {
      IrqDataLosses(w, s.budget, s.o);
    } else if s.id == 6 {
      IrqErrorLosses(w, s.budget, s.o);
    } else if s.id == 12 {
      IrqTimeoutLosses(w, s.budget, s.o);
    }
  }

  lemma StopRxLosses(w: World, s: Step)
    requires Inv(w) && Enabled(w, s) && s.StopRx?
    ensures LosesOnly(w, s, Next(w, s).port.log)
  {
    FlushLosses(w.dma.(st := w.dma.st.(receive := false)), w.port, true, s.o.pause, s.o.keep);
  }

  lemma CfgBeginLosses(w: World, s: Step)
    requires Inv(w) && Enabled(w, s) && s.CfgBegin?
    ensures LosesOnly(w, s, Next(w, s).port.log)
  {
    FlushLosses(w.dma.(st := w.dma.st.(configuring := true)), w.port, true, s.o.pause, s.o.keep);
  }

  lemma WorkPrepareLosses(w: World, s: Step)
    requires Inv(w) && Enabled(w, s) && s.WorkPrepare?
    ensures LosesOnly(w, s, Next(w, s).port.log)
  {
    FlushLosses(w.dma, w.port, false, s.o.pause, s.o.keep);
  }

  lemma StartStepLosses(w: World, s: Step)
    requires Enabled(w, s)
    requires s.Kick? || s.SendX? || s.TxCallback?
    ensures LosesOnly(w, s, Next(w, s).port.log)
  {
  }

  lemma FinishLosses(w: World, s: Step)
    requires Enabled(w, s) && s.WorkFinish?
    ensures LosesOnly(w, s, Next(w, s).port.log)
  {
  }

  lemma EndLosses(w: World, s: Step)
    requires Enabled(w, s) && (s.CfgEnd? || s.CfgGiveUp?)
    ensures LosesOnly(w, s, Next(w, s).port.log)
  {
  }

  lemma WireStepLosses(w: World, s: Step)
    requires Enabled(w, s)
    requires s.Arrive? || s.FifoReset? || s.RbrRead? || s.RxMove? || s.RxCallback?
    ensures LosesOnly(w, s, Next(w, s).port.log)
  {
  }

  lemma SerialStepLosses(w: World, s: Step)
    requires Enabled(w, s)
    requires s.TxMove? || s.TxDone? || s.RxDone? || s.Write? || s.StopOutput? || s.ResumeOutput? || s.FlushBuffer?
          || s.WorkStart? || s.WorkSyncTx? || s.WorkSyncRx?
    ensures LosesOnly(w, s, Next(w, s).port.log)
  {
  }

  lemma ConfigureStepLosses(w: World, s: Step)
    requires Enabled(w, s)
    requires s.CfgDrained? || s.CfgCancel? || s.CfgSyncTx? || s.CfgSyncRx? || s.CfgApply?
    ensures LosesOnly(w, s, Next(w, s).port.log)
  {
  }

  lemma CloseStepLosses(w: World, s: Step)
    requires Enabled(w, s) && (s.Deactivate? || s.CloseWork? || s.CloseTx? || s.CloseRx?)
    ensures LosesOnly(w, s, Next(w, s).port.log)
  {
  }

  /**
   * A step takes a byte unread exactly when it is a starved or a late dummy read or the
   * read of a retried LCR write, throws the FIFO away exactly when it is that write's
   * reset, gives the DMA buffer up exactly when it meets a failed pause, and no step
   * takes an arrival back.
   */
  lemma LossesExactly(w: World, s: Step)
    requires Inv(w) && Enabled(w, s) && !s.Startup?
    ensures var log, log' := w.port.log, Next(w, s).port.log;
            && log'.eaten == log.eaten + (if Starved(w, s) || Late(w, s) || Skips(w, s) then 1 else 0)
            && log'.reset == log.reset + Discards(w, s)
            && log'.gapLen == log.gapLen + (if FailedPause(w, s) then |w.dma.rx.mem| else 0)
            && IsPrefix(log.arrived, log'.arrived)
  {
    if s.Irq? {
      IrqLosses(w, s);
    } else if s.StopRx? {
      StopRxLosses(w, s);
    } else if s.CfgBegin? {
      CfgBeginLosses(w, s);
    } else if s.WorkPrepare? {
      WorkPrepareLosses(w, s);
    } else if s.Kick? || s.SendX? || s.TxCallback? {
      StartStepLosses(w, s);
    } else if s.WorkFinish? {
      FinishLosses(w, s);
    } else if s.CfgEnd? || s.CfgGiveUp? {
      EndLosses(w, s);
    } else if s.Arrive? || s.FifoReset? || s.RbrRead? || s.RxMove? || s.RxCallback? {
      WireStepLosses(w, s);
    } else if s.CfgDrained? || s.CfgCancel? || s.CfgSyncTx? || s.CfgSyncRx? || s.CfgApply? {
      ConfigureStepLosses(w, s);
    } else if s.Deactivate? || s.CloseWork? || s.CloseTx? || s.CloseRx? {
      CloseStepLosses(w, s);
    } else {
      SerialStepLosses(w, s);
    }
  }

  /** The step loses something. */
  predicate Loses(w: World, s: Step) {
    Starved(w, s) || Late(w, s) || Skips(w, s) || Discards(w, s) > 0 || FailedPause(w, s)
  }

  predicate Lossless(w: World, run: seq<Step>)
    requires Legal(w, run)
    decreases |run|
  {
    run == [] || (!Loses(w, run[0]) && Lossless(Next(w, run[0]), run[1..]))
  }

  predicate WithinSession(run: seq<Step>) {
    forall s :: s in run ==> !s.Startup?
  }

  /** The counters only grow, arrivals are kept, and nothing was lost exactly when the counters stand still. */
  ghost predicate Grows(log: RxLog, log': RxLog, lossless: bool) {
    && log'.gapLen >= log.gapLen && log'.eaten >= log.eaten && log'.reset >= log.reset
    && IsPrefix(log.arrived, log'.arrived)
    && (lossless <==> log'.gapLen == log.gapLen && log'.eaten == log.eaten && log'.reset == log.reset)
  }

  lemma StepGrows(w: World, s: Step)
    requires Inv(w) && Enabled(w, s) && !s.Startup?
    ensures Grows(w.port.log, Next(w, s).port.log, !Loses(w, s))
  {
    LossesExactly(w, s);
  }

  lemma GrowsTwice(a: RxLog, b: RxLog, c: RxLog, first: bool, second: bool)
    requires Grows(a, b, first) && Grows(b, c, second)
    ensures Grows(a, c, first && second)
  {
  }

  lemma {:induction false} LossesAccumulate(w: World, run: seq<Step>)
    requires Inv(w) && Legal(w, run) && Tame(w, run) && WithinSession(run)
    ensures Grows(w.port.log, Exec(w, run).port.log, Lossless(w, run))
    decreases |run|
  {
    if run != [] {
      assert run[0] in run;
      assert forall s :: s in run[1..] ==> s in run;
      StepKeeps(w, run[0]);
      StepGrows(w, run[0]);
      var w' := Next(w, run[0]);
      LossesAccumulate(w', run[1..]);
      GrowsTwice(w.port.log, w'.port.log, Exec(w', run[1..]).port.log, !Loses(w, run[0]), Lossless(w', run[1..]));
    }
  }

  lemma {:induction false} RunsCompose(w: World, prefix: seq<Step>, run: seq<Step>)
    requires Legal(w, prefix) && Tame(w, prefix)
    requires Legal(Exec(w, prefix), run) && Tame(Exec(w, prefix), run)
    ensures Legal(w, prefix + run) && Tame(w, prefix + run)
    ensures Exec(w, prefix + run) == Exec(Exec(w, prefix), run)
    decreases |prefix|
  {
    if prefix == [] {
      assert prefix + run == run;
    } else {
      assert (prefix + run)[1..] == prefix[1..] + run;
      RunsCompose(Next(w, prefix[0]), prefix[1..], run);
    }
  }

  lemma ReachableTrans(w: World, run: seq<Step>)
    requires Reachable(w) && Legal(w, run) && Tame(w, run)
    ensures Reachable(Exec(w, run))
  {
    var channels, line, prefix :| ReachedBy(w, channels, line, prefix);
    RunsCompose(Init(channels, line), prefix, run);
    assert ReachedBy(Exec(w, run), channels, line, prefix + run);
  }

  lemma InitReachable(channels: bool, line: int)
    ensures Reachable(Init(channels, line))
  {
    assert ReachedBy(Init(channels, line), channels, line, []);
  }

  lemma ReachStep(w: World, s: Step)
    requires Reachable(w) && Enabled(w, s) && !Hazard(w, s)
    ensures Reachable(Next(w, s))
  {
    var w' := Next(w, s);
    assert [s][0] == s && [s][1..] == [];
    assert Legal(w', []) && Tame(w', []) && Exec(w', []) == w';
    assert Legal(w, [s]) && Tame(w, [s]);
    assert Exec(w, [s]) == Exec(Next(w, [s][0]), [s][1..]);
    ReachableTrans(w, [s]);
  }

  /**
   * From the opening of a session on, the TTY has received every byte that
   * entered the FIFO, apart from those still in the buffer or the FIFO, exactly when
   * no dummy read was starved or late, no LCR write had to be retried over a byte and
   * no pause failed.
   */
  lemma SessionConservesIff(w: World, run: seq<Step>)
    requires Reachable(w) && w.life.Closed?
    requires Legal(Opened(w), run) && Tame(Opened(w), run) && WithinSession(run)
    ensures var w' := Exec(Opened(w), run);
            w'.port.log.arrived == w'.port.tty + InFlight(w'.dma) + w'.hw.fifo <==> Lossless(Opened(w), run)
  {
    ReachableInv(w);
    ReachStep(w, Startup);
    ReachableTrans(Opened(w), run);
    StartupKeeps(w);
    LossesAccumulate(Opened(w), run);
    ConservedIff(Exec(Opened(w), run));
  }
}
