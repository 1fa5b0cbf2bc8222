// What the invariant means: the promises of the driver, over every run that
// contains no hazardous flush.

module UartTheorems {
  import opened Common
  import opened DmaModel
  import opened UartModel
  import opened UartInvariant
  import opened UartSteps

  /** Some run from a port that was never opened ends here. */
  ghost predicate Reachable(w: World) {
    exists channels: bool, line: int, run: seq<Step> :: ReachedBy(w, channels, line, run)
  }

  ghost predicate ReachedBy(w: World, channels: bool, line: int, run: seq<Step>) {
    Legal(Init(channels, line), run) && Tame(Init(channels, line), run) && Exec(Init(channels, line), run) == w
  }

  lemma ReachableInv(w: World)
    requires Reachable(w)
    ensures Inv(w)
  {
    var channels, line, run :| ReachedBy(w, channels, line, run);
    InitInv(channels, line);
    RunKeeps(Init(channels, line), run);
  }

  // ----- transmit: exactly once, in order -----

  /** Per flush epoch the controller has been given an in-order prefix of what was written. */
  lemma TransmitExactlyOnce(w: World)
    requires Reachable(w)
    ensures IsPrefix(w.out.sent, w.out.written)
    ensures forall e :: e in w.out.past ==> IsPrefix(e.sent, e.written)
    ensures w.life.Open? && w.dma.st.tx != Running ==> w.out.written == w.out.sent + w.port.queue
    ensures w.life.Open? && w.dma.st.tx == Running ==>
              && w.dma.tx.done <= |w.dma.tx.mem|
              && w.dma.st.txLen <= |w.port.queue|
              && w.out.written == w.out.sent + (w.dma.tx.mem[w.dma.tx.done..] + w.port.queue[w.dma.st.txLen..])
  {
    ReachableInv(w);
  }

  /** The clamp in advance_tx never binds: a completed block is exactly the head of the queue. */
  lemma AdvanceNeverClamped(w: World)
    requires Reachable(w) && w.life.Open? && w.dma.st.tx == Running
    ensures 0 < w.dma.st.txLen <= TX_SIZE
    ensures Min(w.dma.st.txLen, |w.port.queue|) == w.dma.st.txLen
    ensures w.dma.tx.mem == w.port.queue[..w.dma.st.txLen]
  {
    ReachableInv(w);
  }

  /** Bytes of the issued block that are still on their way. */
  function Issuing(w: World): nat {
    if w.dma.tx.live && w.dma.tx.done <= w.dma.tx.size then w.dma.tx.size - w.dma.tx.done else 0
  }

  /** What a step may do to the output history and, on a stopped line, to the channel. */
  ghost predicate Extends(w: World, w': World) {
    && w'.out.past == w.out.past
    && IsPrefix(w.out.sent, w'.out.sent)
    && IsPrefix(w.out.written, w'.out.written)
    && w'.out.thr == w.out.thr + (if w.hw.dlab then [] else w'.out.sent[|w.out.sent|..])
    && (w.port.stopped ==>
          w'.port.stopped && |w'.out.sent| + Issuing(w') <= |w.out.sent| + Issuing(w))
  }

  lemma StartTxExtends(w: World, o: Choice)
    ensures Extends(w, StartTxIn(w, o))
  {
  }

  lemma SameOutputExtends(w: World, w': World)
    requires w'.out == w.out && w'.dma.tx == w.dma.tx && w'.port.stopped == w.port.stopped
    ensures Extends(w, w')
  {
  }

  /** Reading the receive FIFO, with or without looking, leaves the output side alone. */
  lemma TimeoutPioFrame(w: World, budget: nat, marker: bool, late: Option<Byte>)
    ensures var w' := TimeoutPio(w, budget, marker, late);
            w' == w.(port := w.port.(tty := w'.port.tty, log := w'.port.log), hw := w.hw.(fifo := w'.hw.fifo))
  {
  }

  lemma IrqTimeoutExtends(w: World, budget: nat, o: Choice)
    ensures Extends(w, Dispatch(w, 12, budget, o))
  {
    RxFlushFrame(w.dma, w.port, true, o.pause, o.keep);
    TimeoutPioFrame(Moved(w, RxFlush(w.dma, w.port, true, o.pause, o.keep)), budget, o.marker, o.late);
    SameOutputExtends(w, Dispatch(w, 12, budget, o));
  }

  lemma IrqErrorExtends(w: World, budget: nat, o: Choice)
    ensures Extends(w, Dispatch(w, 6, budget, o))
  {
    RxFlushFrame(w.dma.(st := w.dma.st.(rxFailed := true)), w.port, true, o.pause, o.keep);
    SameOutputExtends(w, Dispatch(w, 6, budget, o));
  }

  lemma IrqDataExtends(w: World, budget: nat, o: Choice)
    ensures Extends(w, Dispatch(w, 4, budget, o))
  {
    SameOutputExtends(w, Dispatch(w, 4, budget, o));
  }

  lemma IrqExtends(w: World, id: nat, budget: nat, o: Choice)
    ensures Extends(w, Dispatch(w, id, budget, o))
  {
    if id == 2 {
      StartTxExtends(w, o);
    } else if id == 4 {
      IrqDataExtends(w, budget, o);
    } else if id == 6 {
      IrqErrorExtends(w, budget, o);
    } else if id == 12 {
      IrqTimeoutExtends(w, budget, o);
    }
  }

  lemma FinishExtends(w: World, o: Choice)
    requires w.worker.Synced?
    ensures Extends(w, FinishWork(w, o))
  {
  }

  lemma EndExtends(w: World, synchronized: bool, o: Choice)
    ensures Extends(w, EndConfigure(w, synchronized, o))
  {
  }

  lemma CompletedExtends(w: World)
    ensures var r := TxComplete(w.dma.(tx := w.dma.tx.(callback := false)), w.port);
            Extends(w, Moved(w, r)) && Issuing(Moved(w, r)) == Issuing(w) && Moved(w, r).out == w.out
  {
  }

  lemma CallbackExtends(w: World, o: Choice)
    ensures Extends(w, TxCalledBack(w, o))
  {
    CompletedExtends(w);
    StartTxExtends(Moved(w, TxComplete(w.dma.(tx := w.dma.tx.(callback := false)), w.port)), o);
  }

  lemma QuietStepExtends(w: World, s: Step)
    requires Enabled(w, s)
    requires s.Arrive? || s.FifoReset? || s.RbrRead? || s.RxMove? || s.RxDone? || s.TxMove? || s.TxDone?
          || s.Write? || s.StopOutput? || s.StopRx? || s.RxCallback?
    ensures Extends(w, Next(w, s))
  {
  }

  lemma WorkStepExtends(w: World, s: Step)
    requires Enabled(w, s)
    requires s.WorkStart? || s.WorkPrepare? || s.WorkSyncTx? || s.WorkSyncRx?
    ensures Extends(w, Next(w, s))
  {
  }

  lemma ConfigureStepExtends(w: World, s: Step)
    requires Enabled(w, s)
    requires s.CfgBegin? || s.CfgDrained? || s.CfgCancel? || s.CfgSyncTx? || s.CfgSyncRx? || s.CfgApply?
    ensures Extends(w, Next(w, s))
  {
  }

  lemma CloseStepExtends(w: World, s: Step)
    requires Enabled(w, s) && (s.Deactivate? || s.CloseWork? || s.CloseTx? || s.CloseRx?)
    ensures Extends(w, Next(w, s))
  {
  }

  /** The steps that may restart transmission. */
  predicate Restarts(s: Step) {
    s.Kick? || s.SendX? || s.Irq? || s.TxCallback? || s.WorkFinish? || s.CfgEnd? || s.CfgGiveUp?
  }

  lemma RestartExtends(w: World, s: Step)
    requires Enabled(w, s) && Restarts(s)
    ensures Extends(w, Next(w, s))
  {
    match s
    case Kick(o) => if !w.port.stopped { StartTxExtends(w.(kicks := w.kicks - 1), o); }
    case SendX(b, o) => StartTxExtends(w.(port := w.port.(xchar := Some(b))), o);
    case Irq(id, budget, o) => IrqExtends(w, id, budget, o);
    case TxCallback(o) => CallbackExtends(w, o);
    case WorkFinish(o) => FinishExtends(w, o);
    case CfgEnd(o) => EndExtends(w, true, o);
    case CfgGiveUp(o) => EndExtends(w.(reported := Fallback(w.cfg.c)), false, o);
  }

  /**
   * History is only ever extended: an epoch is closed as it stands or grows at
   * its end; on a stopped line it grows only by the block already issued.
   */
  lemma HistoryGrows(w: World, s: Step)
    requires Enabled(w, s)
    ensures s.FlushBuffer? || s.Startup? ==> Next(w, s).out == NextEpoch(w.out)
    ensures !s.FlushBuffer? && !s.Startup? && !s.ResumeOutput? ==> Extends(w, Next(w, s))
    ensures s.ResumeOutput? ==> Next(w, s).out == w.out
  {
    if Restarts(s) {
      RestartExtends(w, s);
    } else if s.Arrive? || s.FifoReset? || s.RbrRead? || s.RxMove? || s.RxDone? || s.TxMove? || s.TxDone?
           || s.Write? || s.StopOutput? || s.StopRx? || s.RxCallback? {
      QuietStepExtends(w, s);
    } else if s.WorkStart? || s.WorkPrepare? || s.WorkSyncTx? || s.WorkSyncRx? {
      WorkStepExtends(w, s);
    } else if s.Deactivate? || s.CloseWork? || s.CloseTx? || s.CloseRx? {
      CloseStepExtends(w, s);
    } else if !s.FlushBuffer? && !s.Startup? && !s.ResumeOutput? {
      ConfigureStepExtends(w, s);
    }
  }

  predicate StaysStopped(run: seq<Step>) {
    forall s :: s in run ==> !s.ResumeOutput? && !s.FlushBuffer? && !s.Startup?
  }

  lemma {:induction false} StoppedRun(w: World, run: seq<Step>)
    requires Inv(w) && w.port.stopped && Legal(w, run) && StaysStopped(run)
    ensures var w' := Exec(w, run); |w'.out.sent| + Issuing(w') <= |w.out.sent| + Issuing(w)
    decreases |run|
  {
    if run != [] {
      assert run[0] in run;
      assert !Hazard(w, run[0]);
      StepKeeps(w, run[0]);
      HistoryGrows(w, run[0]);
      assert forall s :: s in run[1..] ==> s in run;
      StoppedRun(Next(w, run[0]), run[1..]);
    }
  }

  /** A software stop lets the issued block finish and chains nothing after it. */
  lemma StopLetsOneBlockFinish(w: World, run: seq<Step>)
    requires Reachable(w) && w.port.stopped && Legal(w, run) && StaysStopped(run)
    ensures |Exec(w, run).out.sent| <= |w.out.sent| + Issuing(w) <= |w.out.sent| + TX_SIZE
  {
    ReachableInv(w);
    StoppedRun(w, run);
  }

  // ----- bytes that miss the transmit register -----

  predicate WithinEpoch(run: seq<Step>) {
    forall s :: s in run ==> !s.FlushBuffer? && !s.Startup?
  }

  /** The step hands bytes over while DLAB is set. */
  predicate Misdirects(w: World, s: Step)
    requires Enabled(w, s)
  {
    w.hw.dlab && |Next(w, s).out.sent| > |w.out.sent|
  }

  predicate NoneMisdirected(w: World, run: seq<Step>)
    requires Legal(w, run)
    decreases |run|
  {
    run == [] || (!Misdirects(w, run[0]) && NoneMisdirected(Next(w, run[0]), run[1..]))
  }

  /** How many bytes of the epoch missed the transmit register may only grow. */
  ghost predicate Misses(log: TxLog, log': TxLog, none: bool) {
    && |log'.sent| - |log'.thr| >= |log.sent| - |log.thr|
    && (none <==> |log'.sent| - |log'.thr| == |log.sent| - |log.thr|)
    && (log.thr == log.sent && none ==> log'.thr == log'.sent)
  }

  lemma MissesOf(log: TxLog, log': TxLog, dlab: bool)
    requires IsPrefix(log.sent, log'.sent) && log'.thr == log.thr + (if dlab then [] else log'.sent[|log.sent|..])
    ensures Misses(log, log', !(dlab && |log'.sent| > |log.sent|))
  {
  }

  lemma MissesStep(w: World, s: Step)
    requires Enabled(w, s) && !s.FlushBuffer? && !s.Startup?
    ensures Misses(w.out, Next(w, s).out, !Misdirects(w, s))
  {
    HistoryGrows(w, s);
    if !s.ResumeOutput? {
      MissesOf(w.out, Next(w, s).out, w.hw.dlab);
    }
  }

  lemma {:induction false} MissesAccumulate(w: World, run: seq<Step>)
    requires Legal(w, run) && WithinEpoch(run)
    ensures Misses(w.out, Exec(w, run).out, NoneMisdirected(w, run))
    decreases |run|
  {
    if run != [] {
      assert run[0] in run && forall s :: s in run[1..] ==> s in run;
      MissesStep(w, run[0]);
      MissesAccumulate(Next(w, run[0]), run[1..]);
    }
  }

  /**
   * From the start of an epoch, every byte handed over so far reached the transmit register,
   * in order, exactly when none was handed over while a failed rollback had left DLAB set.
   */
  lemma ReachesLineIff(w: World, run: seq<Step>)
    requires w.out.sent == [] && w.out.thr == [] && Legal(w, run) && WithinEpoch(run)
    ensures Exec(w, run).out.thr == Exec(w, run).out.sent <==> NoneMisdirected(w, run)
  {
    MissesAccumulate(w, run);
  }
}
