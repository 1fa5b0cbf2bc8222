// Ownership, quiescence and progress: the promises about who may touch what,
// and that no cancellation or kick is forgotten.

module ProtocolTheorems {
  import opened Common
  import opened DmaModel
  import opened UartModel
  import opened UartInvariant
  import opened UartSteps
  import opened UartTheorems

  // ----- buffer ownership -----

  /** An Idle direction has nothing outstanding; a Running one is never stuck. */
  lemma OwnershipByPhase(w: World)
    requires Reachable(w)
    ensures w.dma.st.tx == Idle ==> Quiet(w.dma.tx)
    ensures w.dma.st.rx == Idle ==> Quiet(w.dma.rx)
    ensures w.dma.tx.live ==> w.dma.st.tx == Running && !w.dma.tx.callback
    ensures w.dma.rx.live ==> w.dma.st.rx == Running && !w.dma.rx.callback
    ensures w.life.Open? && w.dma.st.tx == Running ==> w.dma.tx.live || w.dma.tx.callback
    ensures w.life.Open? && w.dma.st.rx == Running ==> w.dma.rx.live || w.dma.rx.callback
  {
    ReachableInv(w);
  }

  /** Where the driver hands a descriptor to a channel. */
  ghost predicate Submits(c: Channel, c': Channel) {
    c'.live && (!c.live || c'.done < c.done || c'.cookie != c.cookie)
  }

  /** The callback a step is about to consume, if any, is its own. */
  predicate OnlyOwnCallback(c: Channel, own: bool) {
    !c.live && (c.callback ==> own)
  }

  lemma StartTxOwnership(w: World, o: Choice)
    requires TxShape(w.dma)
    ensures var w' := StartTxIn(w, o);
            && (w'.dma.tx == w.dma.tx || Quiet(w.dma.tx))
            && w'.dma.rx == w.dma.rx && w'.hw.fifo == w.hw.fifo
  {
  }

  lemma IrqDataOwnership(w: World, budget: nat, o: Choice)
    requires Inv(w) && w.hw.ierRx
    ensures Dispatch(w, 4, budget, o).dma.tx == w.dma.tx
    ensures Submits(w.dma.rx, Dispatch(w, 4, budget, o).dma.rx) ==> Quiet(w.dma.rx)
    ensures Dispatch(w, 4, budget, o).hw.fifo != w.hw.fifo ==> !Dispatch(w, 4, budget, o).dma.rx.live
  {
  }

  lemma IrqFlushOwnership(w: World, id: nat, budget: nat, o: Choice)
    requires Inv(w) && (id == 6 || id == 12)
    ensures Dispatch(w, id, budget, o).dma.tx == w.dma.tx
    ensures !Dispatch(w, id, budget, o).dma.rx.live
  {
  }

  lemma IrqOwnership(w: World, id: nat, budget: nat, o: Choice)
    requires Inv(w) && Enabled(w, Irq(id, budget, o))
    ensures Submits(w.dma.tx, Dispatch(w, id, budget, o).dma.tx) ==> Quiet(w.dma.tx)
    ensures Submits(w.dma.rx, Dispatch(w, id, budget, o).dma.rx) ==> Quiet(w.dma.rx)
    ensures Dispatch(w, id, budget, o).hw.fifo != w.hw.fifo ==> !Dispatch(w, id, budget, o).dma.rx.live
  {
    if id == 2 {
      StartTxOwnership(w, o);
    } else if id == 4 {
      IrqDataOwnership(w, budget, o);
    } else if id == 6 || id == 12 {
      IrqFlushOwnership(w, id, budget, o);
    }
  }

  lemma CallbackOwnership(w: World, o: Choice)
    requires Inv(w) && w.dma.tx.callback
    ensures Submits(w.dma.tx, TxCalledBack(w, o).dma.tx) ==> OnlyOwnCallback(w.dma.tx, true)
    ensures TxCalledBack(w, o).dma.rx == w.dma.rx && TxCalledBack(w, o).hw.fifo == w.hw.fifo
  {
    TxCompleteParts(w.dma, w.port, w.out);
    StartTxOwnership(Moved(w, TxComplete(w.dma.(tx := w.dma.tx.(callback := false)), w.port)), o);
  }

  lemma FinishOwnership(w: World, o: Choice)
    requires Inv(w) && w.worker.Synced?
    ensures Submits(w.dma.tx, FinishWork(w, o).dma.tx) ==> Quiet(w.dma.tx)
    ensures FinishWork(w, o).dma.rx == w.dma.rx
    ensures FinishWork(w, o).hw.fifo != w.hw.fifo ==> !w.dma.rx.live
  {
    var tx, rx := w.worker.tx, w.worker.rx;
    IdleParts(w.dma, w.port, w.out, w.hw.fifo, tx, rx);
    var w1 := w.(dma := DmaModel.WorkFinish(w.dma, tx, rx).0, worker := Parked);
    StartTxOwnership(if rx then PioIn(w1, IRQ_BUDGET) else w1, o);
  }

  lemma EndOwnership(w: World, synchronized: bool, o: Choice)
    requires Inv(w) && (if synchronized then w.cfg.Applied? else w.cfg.Begun?)
    ensures Submits(w.dma.tx, EndConfigure(w, synchronized, o).dma.tx) ==> Quiet(w.dma.tx)
    ensures EndConfigure(w, synchronized, o).dma.rx == w.dma.rx
    ensures EndConfigure(w, synchronized, o).hw.fifo == w.hw.fifo
  {
  }

  /** A section that may submit to the transmit channel only. */
  ghost predicate OwnsSubmission(w: World, s: Step, w': World) {
    && (Submits(w.dma.tx, w'.dma.tx) ==> OnlyOwnCallback(w.dma.tx, s.TxCallback?))
    && w'.dma.rx == w.dma.rx
    && (w'.hw.fifo != w.hw.fifo ==> !w.dma.rx.live)
  }

  lemma StartOwnership(w: World, s: Step)
    requires Inv(w) && Enabled(w, s) && (s.Kick? || s.SendX? || s.TxCallback?)
    ensures OwnsSubmission(w, s, Next(w, s))
  {
    match s
    case Kick(o) => StartTxOwnership(w.(kicks := w.kicks - 1), o);
    case SendX(b, o) => StartTxOwnership(w.(port := w.port.(xchar := Some(b))), o);
    case TxCallback(o) => CallbackOwnership(w, o);
  }

  lemma RestartOwnership(w: World, s: Step)
    requires Inv(w) && Enabled(w, s) && (s.WorkFinish? || s.CfgEnd? || s.CfgGiveUp?)
    ensures OwnsSubmission(w, s, Next(w, s))
  {
    match s
    case WorkFinish(o) => FinishOwnership(w, o);
    case CfgEnd(o) => EndOwnership(w, true, o);
    case CfgGiveUp(o) =>
      var w1 := w.(reported := Fallback(w.cfg.c));
      SameTxKeeps(w.dma, w1.dma, w.port, w1.port, w.out);
      EndOwnership(w1, false, o);
  }

  predicate Administrative(s: Step) {
    s.Startup? || s.Deactivate? || s.CloseWork? || s.CloseTx? || s.CloseRx?
  }

  predicate Synchronizing(s: Step) {
    || s.WorkStart? || s.WorkSyncTx? || s.WorkSyncRx?
    || s.CfgDrained? || s.CfgCancel? || s.CfgSyncTx? || s.CfgSyncRx? || s.CfgApply?
  }

  /** What follows an LCR write the controller ignored: a FIFO reset and one read of the data register. */
  predicate LcrRetry(s: Step) {
    s.FifoReset? || s.RbrRead?
  }

  /** What a step that submits nothing does to the channels and the FIFO. */
  ghost predicate LeavesChannels(w: World, s: Step, w': World) {
    && !Submits(w.dma.tx, w'.dma.tx) && !Submits(w.dma.rx, w'.dma.rx)
    && (w'.hw.fifo != w.hw.fifo ==> s.Arrive? || LcrRetry(s) || s.RxMove? || s.Startup?)
  }

  lemma AdministrativeOwnership(w: World, s: Step)
    requires Inv(w) && Enabled(w, s) && Administrative(s)
    ensures LeavesChannels(w, s, Next(w, s))
  {
  }

  lemma SynchronizingOwnership(w: World, s: Step)
    requires Inv(w) && Enabled(w, s) && (s.WorkSyncTx? || s.WorkSyncRx? || s.CfgSyncTx? || s.CfgSyncRx?)
    ensures LeavesChannels(w, s, Next(w, s))
  {
  }

  lemma MarkingOwnership(w: World, s: Step)
    requires Inv(w) && Enabled(w, s) && (s.WorkStart? || s.CfgDrained? || s.CfgCancel? || s.CfgApply?)
    ensures LeavesChannels(w, s, Next(w, s))
  {
  }

  lemma OtherOwnership(w: World, s: Step)
    requires Inv(w) && Enabled(w, s) && !s.Irq? && !Administrative(s) && !Synchronizing(s)
    requires !(s.Kick? || s.SendX? || s.TxCallback? || s.WorkFinish? || s.CfgEnd? || s.CfgGiveUp?)
    ensures LeavesChannels(w, s, Next(w, s))
  {
  }

  /**
   * A descriptor is submitted only to a channel with no transfer and no foreign
   * callback outstanding, and but for retried LCR writes the CPU takes bytes from the
   * receive FIFO only while no DMA transfer can.
   */
  lemma OwnershipByStep(w: World, s: Step)
    requires Reachable(w) && Enabled(w, s)
    ensures var w' := Next(w, s);
            && (Submits(w.dma.tx, w'.dma.tx) ==> OnlyOwnCallback(w.dma.tx, s.TxCallback?))
            && (Submits(w.dma.rx, w'.dma.rx) ==> Quiet(w.dma.rx))
            && (w'.hw.fifo != w.hw.fifo ==>
                  s.Arrive? || LcrRetry(s) || s.RxMove? || s.Startup? || !w'.dma.rx.live)
  {
    ReachableInv(w);
    if s.Irq? {
      IrqOwnership(w, s.id, s.budget, s.o);
    } else if s.Kick? || s.SendX? || s.TxCallback? {
      StartOwnership(w, s);
    } else if s.WorkFinish? || s.CfgEnd? || s.CfgGiveUp? {
      RestartOwnership(w, s);
    } else if Administrative(s) {
      AdministrativeOwnership(w, s);
    } else if s.WorkSyncTx? || s.WorkSyncRx? || s.CfgSyncTx? || s.CfgSyncRx? {
      SynchronizingOwnership(w, s);
    } else if Synchronizing(s) {
      MarkingOwnership(w, s);
    } else {
      OtherOwnership(w, s);
    }
  }

  // ----- termios quiescence -----

  /** apply_termios runs with no transfer, no callback and no worker anywhere. */
  lemma TermiosQuiescent(w: World)
    requires Reachable(w) && (w.cfg.Quiesced? || w.cfg.Applied?)
    ensures Quiet(w.dma.tx) && Quiet(w.dma.rx)
    ensures w.worker.Parked? && !w.dma.armed && w.dma.st.configuring
  {
    ReachableInv(w);
  }

  predicate CfgStep(s: Step) {
    || s.CfgBegin? || s.CfgDrained? || s.CfgCancel? || s.CfgSyncTx? || s.CfgSyncRx?
    || s.CfgApply? || s.CfgEnd? || s.CfgGiveUp?
  }

  lemma CfgUntouched(w: World, s: Step)
    requires Enabled(w, s) && !CfgStep(s) && !s.WorkFinish? && !s.TxCallback?
    ensures var w' := Next(w, s);
            w'.cfg == w.cfg && w'.line == w.line && w'.reported == w.reported && w'.hw.dlab == w.hw.dlab
  {
  }

  lemma CfgUntouchedAsync(w: World, s: Step)
    requires Enabled(w, s) && (s.WorkFinish? || s.TxCallback?)
    ensures var w' := Next(w, s);
            w'.cfg == w.cfg && w'.line == w.line && w'.reported == w.reported && w'.hw.dlab == w.hw.dlab
  {
  }

  lemma PastCancelStays(w: World, s: Step)
    requires Enabled(w, s) && PastCancel(w.cfg) && !s.CfgEnd? && !s.CfgBegin?
    ensures PastCancel(Next(w, s).cfg)
  {
    if s.WorkFinish? || s.TxCallback? {
      CfgUntouchedAsync(w, s);
    } else if !CfgStep(s) {
      CfgUntouched(w, s);
    }
  }

  lemma QuietPastCancel(w: World)
    requires Inv(w) && PastCancel(w.cfg)
    ensures !w.dma.tx.live && !w.dma.rx.live && !w.dma.armed && w.worker.Parked?
  {
  }

  /** Between the cancellation and configure_end no transfer and no worker exists or starts. */
  lemma NothingStartsWhileQuiescing(w: World, s: Step)
    requires Reachable(w) && PastCancel(w.cfg) && Enabled(w, s) && !Hazard(w, s) && !s.CfgEnd?
    ensures var w' := Next(w, s);
            && PastCancel(w'.cfg)
            && !w'.dma.tx.live && !w'.dma.rx.live
            && !w'.dma.armed && w'.worker.Parked?
  {
    ReachableInv(w);
    StepKeeps(w, s);
    PastCancelStays(w, s);
    QuietPastCancel(Next(w, s));
  }

  /** A flush is the only step that can break this quiescence, and only the hazardous one does. */
  lemma FlushBreaksQuiescenceIff(w: World, o: Choice)
    requires Reachable(w) && PastCancel(w.cfg)
    ensures Flushed(w, o).dma.armed <==> Hazard(w, FlushBuffer(o))
    ensures Inv(Flushed(w, o)) <==> !Hazard(w, FlushBuffer(o))
  {
    ReachableInv(w);
    FlushKeepsIff(w, o);
    FlushParts(w.dma, w.port, w.out, o.keep);
  }

  /** Settings are programmed only into a quiescent controller. */
  lemma LineChangesOnlyQuiesced(w: World, s: Step)
    requires Reachable(w) && Enabled(w, s) && Next(w, s).line != w.line
    ensures s.CfgApply? && Quiet(w.dma.tx) && Quiet(w.dma.rx) && w.worker.Parked?
  {
    ReachableInv(w);
    if s.WorkFinish? || s.TxCallback? {
      CfgUntouchedAsync(w, s);
    } else if !CfgStep(s) {
      CfgUntouched(w, s);
    } else if !s.CfgApply? {
      CfgEndsKeepLine(w, s);
    }
  }

  lemma CfgEndsKeepLine(w: World, s: Step)
    requires Enabled(w, s) && CfgStep(s) && !s.CfgApply?
    ensures Next(w, s).line == w.line && Next(w, s).hw.dlab == w.hw.dlab
    ensures s.CfgEnd? ==> Next(w, s).reported == w.reported && Next(w, s).cfg == NoChange
    ensures s.CfgGiveUp? ==> Next(w, s).reported == Fallback(w.cfg.c) && Next(w, s).cfg == NoChange
  {
  }

  /**
   * Every change falls back to what serial core believes in force: it names that as the
   * settings it replaces, or names none and asks for them again.
   */
  predicate Supplied(w: World, run: seq<Step>)
    requires Legal(w, run)
    decreases |run|
  {
    run == [] || ((run[0].CfgBegin? ==> Fallback(run[0].c) == w.reported) && Supplied(Next(w, run[0]), run[1..]))
  }

  /**
   * Whether the settings asked for last are in force after a step: a rejection that is
   * not fully undone spoils them until the next change is accepted.
   */
  predicate InForceAfter(s: Step, before: bool) {
    if s.CfgApply? then s.v.Accepted? || (before && s.v.registers && s.v.clock) else before
  }

  function InForce(run: seq<Step>, before: bool): bool {
    if run == [] then before else InForce(run[1..], InForceAfter(run[0], before))
  }

  /** What serial core believes is in the controller, or the controller holds a mixture. */
  ghost predicate Believes(w: World, ok: bool) {
    && w.line == (if ok then Settings(w.reported) else Garbled)
    && (w.cfg.NoChange? || w.cfg.Applied? || Fallback(w.cfg.c) == w.reported)
    && (w.hw.dlab ==> !ok)
  }

  lemma BelievesStep(w: World, s: Step, ok: bool)
    requires Believes(w, ok) && Enabled(w, s)
    requires s.CfgBegin? ==> Fallback(s.c) == w.reported
    ensures Believes(Next(w, s), InForceAfter(s, ok))
  {
    if s.WorkFinish? || s.TxCallback? {
      CfgUntouchedAsync(w, s);
    } else if !CfgStep(s) {
      CfgUntouched(w, s);
    } else if !s.CfgApply? {
      CfgEndsKeepLine(w, s);
    }
  }

  /**
   * Whether changes are applied, rejected or given up on a slow transfer, serial core
   * believes what is really programmed exactly when no rejection since the last accepted
   * change was left unrestored; and only such a rejection leaves DLAB set.
   */
  lemma {:induction false} ReportedIsProgrammed(w: World, run: seq<Step>, ok: bool)
    requires Believes(w, ok) && Legal(w, run) && Supplied(w, run)
    ensures Believes(Exec(w, run), InForce(run, ok))
    ensures Exec(w, run).line == Settings(Exec(w, run).reported) <==> InForce(run, ok)
    decreases |run|
  {
    if run != [] {
      BelievesStep(w, run[0], ok);
      ReportedIsProgrammed(Next(w, run[0]), run[1..], InForceAfter(run[0], ok));
    }
  }

  /** A change that names no settings to fall back to is believed even when it is rejected or given up. */
  lemma UnsuppliedIsBelieved(w: World, v: Verdict, o: Choice)
    requires w.line == Settings(w.reported) && !w.cfg.NoChange? && w.cfg.c.previous.None?
    requires w.cfg.c.next != w.reported
    ensures Enabled(w, CfgApply(v)) ==>
              var w' := Next(w, CfgApply(v)); w'.line == Settings(w'.reported) <==> v.Accepted?
    ensures Enabled(w, CfgGiveUp(o)) ==>
              var w' := Next(w, CfgGiveUp(o)); w'.line == w.line && w'.line != Settings(w'.reported)
  {
  }

  // ----- a controller left with DLAB set -----

  /** DLAB is left set only by a rejection that also garbled the settings. */
  lemma {:induction false} LatchMeansGarbled(w: World, run: seq<Step>)
    requires Legal(w, run) && (w.hw.dlab ==> w.line.Garbled?)
    ensures Exec(w, run).hw.dlab ==> Exec(w, run).line.Garbled?
    decreases |run|
  {
    if run != [] {
      var s := run[0];
      if s.WorkFinish? || s.TxCallback? {
        CfgUntouchedAsync(w, s);
      } else if !CfgStep(s) {
        CfgUntouched(w, s);
      } else if !s.CfgApply? {
        CfgEndsKeepLine(w, s);
      }
      LatchMeansGarbled(Next(w, s), run[1..]);
    }
  }

  lemma ReachableLatch(w: World)
    requires Reachable(w)
    ensures w.hw.dlab ==> w.line.Garbled?
  {
    var channels, line, run :| ReachedBy(w, channels, line, run);
    LatchMeansGarbled(Init(channels, line), run);
  }

  /** No change of the run leaves DLAB set. */
  predicate ShutsLatch(run: seq<Step>) {
    forall s :: s in run && s.CfgApply? && s.v.Rejected? ==> !s.v.dlab
  }

  lemma LatchStep(w: World, s: Step)
    requires Enabled(w, s) && !s.CfgApply?
    ensures Next(w, s).hw.dlab == w.hw.dlab
  {
    if s.WorkFinish? || s.TxCallback? {
      CfgUntouchedAsync(w, s);
    } else if !CfgStep(s) {
      CfgUntouched(w, s);
    } else {
      CfgEndsKeepLine(w, s);
    }
  }

  /** Bytes miss the transmit register only after a rejection that left DLAB set. */
  lemma {:induction false} ReachesLine(w: World, run: seq<Step>)
    requires Legal(w, run) && !w.hw.dlab && ShutsLatch(run)
    ensures NoneMisdirected(w, run)
    decreases |run|
  {
    if run != [] {
      assert run[0] in run && forall s :: s in run[1..] ==> s in run;
      if !run[0].CfgApply? {
        LatchStep(w, run[0]);
      }
      ReachesLine(Next(w, run[0]), run[1..]);
    }
  }

  lemma LatchedIrq(w: World, s: Step)
    requires Enabled(w, s) && s.Irq? && w.hw.dlab
    ensures Next(w, s) == w
  {
  }

  lemma LatchedWorker(w: World, s: Step)
    requires Inv(w) && Enabled(w, s) && w.hw.dlab
    requires s.WorkFinish? || s.WorkPrepare? || s.RxCallback?
    ensures Next(w, s).port.tty == w.port.tty && Next(w, s).hw.fifo == w.hw.fifo
  {
  }

  lemma LatchedSerial(w: World, s: Step)
    requires Inv(w) && Enabled(w, s) && w.hw.dlab
    requires s.Kick? || s.SendX? || s.TxCallback? || s.StopRx? || s.CfgBegin?
    ensures Next(w, s).port.tty == w.port.tty && Next(w, s).hw.fifo == w.hw.fifo
  {
  }

  lemma LatchedEnd(w: World, s: Step)
    requires Inv(w) && Enabled(w, s) && w.hw.dlab && (s.CfgEnd? || s.CfgGiveUp?)
    ensures Next(w, s).port.tty == w.port.tty && Next(w, s).hw.fifo == w.hw.fifo
  {
  }

  lemma LatchedOther(w: World, s: Step)
    requires Inv(w) && Enabled(w, s) && w.hw.dlab
    requires !(s.Irq? || s.WorkFinish? || s.WorkPrepare? || s.RxCallback? || s.Kick? || s.SendX? || s.TxCallback?
               || s.StopRx? || s.CfgBegin? || s.CfgEnd? || s.CfgGiveUp?)
    requires !s.Arrive? && !s.FifoReset? && !s.Startup?
    ensures Next(w, s).port.tty == w.port.tty && Next(w, s).hw.fifo == w.hw.fifo
  {
  }

  /** While DLAB is left set nobody reads the divisor latch for data: nothing is received. */
  lemma NothingReceivedWhileLatched(w: World, s: Step)
    requires Reachable(w) && Enabled(w, s) && w.hw.dlab && !s.Arrive? && !s.FifoReset? && !s.Startup?
    ensures Next(w, s).port.tty == w.port.tty && Next(w, s).hw.fifo == w.hw.fifo
  {
    ReachableInv(w);
    if s.Irq? {
      LatchedIrq(w, s);
    } else if s.WorkFinish? || s.WorkPrepare? || s.RxCallback? {
      LatchedWorker(w, s);
    } else if s.Kick? || s.SendX? || s.TxCallback? || s.StopRx? || s.CfgBegin? {
      LatchedSerial(w, s);
    } else if s.CfgEnd? || s.CfgGiveUp? {
      LatchedEnd(w, s);
    } else {
      LatchedOther(w, s);
    }
  }

  /** Giving up leaves the issued block alone: it still completes and is counted once. */
  lemma GiveUpKeepsTransfer(w: World, o: Choice)
    requires Reachable(w) && w.cfg.Begun? && w.dma.st.tx == Running
    ensures var w' := Next(w, CfgGiveUp(o));
            && w'.dma.tx == w.dma.tx && w'.dma.st.tx == Running && w'.dma.st.txLen == w.dma.st.txLen
            && w'.line == w.line && w'.out == w.out && w'.port.queue == w.port.queue
            && w'.reported == (if w.cfg.c.previous.Some? then w.cfg.c.previous.value else w.cfg.c.next)
  {
    ReachableInv(w);
    var w1 := w.(reported := Fallback(w.cfg.c));
    var w2 := w1.(dma := ConfigureEnd(w1.dma, false).0, cfg := NoChange);
    assert TxStart(w2.dma, w2.port, o.cookie) == (w2.dma, true);
    assert Next(w, CfgGiveUp(o)) == StartTxIn(w2, o);
    assert w.out.sent + [] == w.out.sent && w.out.thr + [] == w.out.thr;
  }

  // ----- close quiescence -----

  /** A step that moves no data of the session and starts nothing. */
  ghost predicate Inert(w: World, s: Step, w': World) {
    && w'.port.queue == w.port.queue && w'.port.tty == w.port.tty
    && (w'.port.log.fate != w.port.log.fate ==> LcrRetry(s))
    && !Submits(w.dma.tx, w'.dma.tx) && !Submits(w.dma.rx, w'.dma.rx)
    && (w'.dma.armed ==> w.dma.armed)
    && !w'.life.Open?
  }

  lemma ClosingCallbacks(w: World, s: Step)
    requires Inv(w) && !w.life.Open? && Enabled(w, s) && (s.TxCallback? || s.RxCallback? || s.Irq?)
    ensures Inert(w, s, Next(w, s))
  {
  }

  lemma ClosingWorker(w: World, s: Step)
    requires Inv(w) && !w.life.Open? && Enabled(w, s) && (s.WorkPrepare? || s.WorkFinish?)
    ensures Inert(w, s, Next(w, s))
  {
  }

  lemma ClosingWire(w: World, s: Step)
    requires Inv(w) && !w.life.Open? && Enabled(w, s) && !s.Startup?
    requires !(s.TxCallback? || s.RxCallback? || s.Irq? || s.WorkPrepare? || s.WorkFinish?)
    ensures Inert(w, s, Next(w, s))
  {
  }

  /** Some step of the run hands a descriptor to the receive (or transmit) channel. */
  ghost predicate SubmitsAlong(w: World, run: seq<Step>, rx: bool)
    requires Legal(w, run)
    decreases |run|
  {
    run != [] &&
    (var w' := Next(w, run[0]);
     (if rx then Submits(w.dma.rx, w'.dma.rx) else Submits(w.dma.tx, w'.dma.tx)) || SubmitsAlong(w', run[1..], rx))
  }

  /** What a run without an open leaves of a port that was deactivated. */
  ghost predicate StaysInert(w: World, w': World, retried: bool) {
    && w'.port.queue == w.port.queue && w'.port.tty == w.port.tty
    && (w'.port.log.fate != w.port.log.fate ==> retried)
    && (w'.dma.armed ==> w.dma.armed)
    && !w'.life.Open?
  }

  lemma {:induction false} ClosingRun(w: World, run: seq<Step>)
    requires Inv(w) && !w.life.Open? && Legal(w, run) && forall s :: s in run ==> !s.Startup?
    ensures StaysInert(w, Exec(w, run), exists s :: s in run && LcrRetry(s))
    ensures !SubmitsAlong(w, run, true) && !SubmitsAlong(w, run, false)
    decreases |run|
  {
    if run != [] {
      var s, w' := run[0], Next(w, run[0]);
      assert s in run && !Hazard(w, s) && forall x :: x in run[1..] ==> x in run;
      if s.TxCallback? || s.RxCallback? || s.Irq? {
        ClosingCallbacks(w, s);
      } else if s.WorkPrepare? || s.WorkFinish? {
        ClosingWorker(w, s);
      } else {
        ClosingWire(w, s);
      }
      StepKeeps(w, s);
      ClosingRun(w', run[1..]);
    }
  }

  /**
   * However a closed session goes on, late callbacks included: nothing is submitted or
   * re-armed, and queue and TTY data stay as they were.
   */
  lemma ClosingChangesNothing(w: World, run: seq<Step>)
    requires Reachable(w) && !w.life.Open? && Legal(w, run) && forall s :: s in run ==> !s.Startup?
    ensures StaysInert(w, Exec(w, run), exists s :: s in run && LcrRetry(s))
    ensures !SubmitsAlong(w, run, true) && !SubmitsAlong(w, run, false)
  {
    ReachableInv(w);
    ClosingRun(w, run);
  }

  /** A closed port has nothing left, so the next open may reset the state blindly. */
  lemma ClosedIsQuiet(w: World)
    requires Reachable(w) && w.life.Closed?
    ensures Quiet(w.dma.tx) && Quiet(w.dma.rx)
    ensures w.worker.Parked? && !w.dma.armed && w.cfg.NoChange?
    ensures Opened(w).dma.st.tx == Idle && Opened(w).dma.st.rx == Idle && Inv(Opened(w))
  {
    ReachableInv(w);
    StartupKeeps(w);
  }

  // ----- progress -----

  /** Every cancellation is covered by a worker or by a termios change about to reset it. */
  lemma NoStrandedCancellation(w: World)
    requires Reachable(w) && w.life.Open?
    ensures w.dma.st.tx == Stopping ==> w.dma.armed || CoversTx(w.worker) || PastCancel(w.cfg)
    ensures w.dma.st.rx == Stopping ==> w.dma.armed || CoversRx(w.worker) || PastCancel(w.cfg)
    ensures w.dma.st.rx == Running ==> w.dma.armed || w.worker.Started?
  {
    ReachableInv(w);
  }

  lemma KickOrOwner(w: World)
    requires Inv(w) && w.life.Open? && w.port.queue != [] && !w.port.stopped
    ensures w.dma.st.tx != Idle || w.dma.st.configuring || w.kicks > 0 || w.hw.ierTx
    ensures w.dma.st.configuring ==> !w.cfg.NoChange?
  {
  }

  /**
   * A byte that waits on a running line always has somebody about to send it, unless
   * a rejected change left DLAB set and the enabled interrupt cannot be raised.
   */
  lemma KickNeverLost(w: World, budget: nat, o: Choice)
    requires Reachable(w) && w.life.Open? && w.port.queue != [] && !w.port.stopped
    ensures w.dma.st.tx != Idle || w.dma.st.configuring || w.kicks > 0 || w.hw.ierTx
    ensures w.hw.ierTx ==> (Enabled(w, Irq(2, budget, o)) <==> !w.hw.dlab)
    ensures w.hw.dlab ==> w.line.Garbled?
    ensures w.dma.st.configuring ==> !w.cfg.NoChange?
  {
    ReachableInv(w);
    KickOrOwner(w);
    ReachableLatch(w);
  }
}
