// A direction that DMA has given up stays with PIO until the port is opened again.

module SessionTheorem {
  import opened Common
  import opened DmaModel
  import opened UartModel
  import opened UartInvariant
  import opened UartTheorems
  import opened ReceiveTheorems
  import opened ProtocolTheorems

  /** What one section may do to the flags that end DMA for a session, and what they forbid it. */
  ghost predicate Respects(d: Dma, d': Dma) {
    && (d.st.rxFailed ==> d'.st.rxFailed)
    && (!d.st.receive ==> !d'.st.receive)
    && (d.st.txFailed ==> d'.st.txFailed)
    && (d.st.rxFailed || !d.st.receive ==> !Submits(d.rx, d'.rx))
    && (d.st.txFailed ==> !Submits(d.tx, d'.tx))
  }

  lemma StartTxRespects(w: World, o: Choice)
    ensures Respects(w.dma, StartTxIn(w, o).dma)
  {
  }

  lemma RxStartRespects(d: Dma, cookie: Option<int>)
    ensures Respects(d, RxStart(d, cookie).0)
  {
  }

  lemma RxFlushRespects(d: Dma, p: Port, schedule: bool, pause: Pause, keep: bool)
    ensures Respects(d, RxFlush(d, p, schedule, pause, keep).0)
  {
    RxFlushFrame(d, p, schedule, pause, keep);
    var d' := RxFlush(d, p, schedule, pause, keep).0;
    assert d'.rx == d.rx || !d'.rx.live;
  }

  lemma RxErrorRespects(d: Dma, p: Port, pause: Pause, keep: bool)
    ensures Respects(d, RxError(d, p, pause, keep).0)
  {
    RxFlushRespects(d.(st := d.st.(rxFailed := true)), p, true, pause, keep);
  }

  lemma IrqDataRespects(w: World, budget: nat, o: Choice)
    ensures Respects(w.dma, Dispatch(w, 4, budget, o).dma)
  {
    RxStartRespects(w.dma, o.cookie);
    assert Dispatch(w, 4, budget, o).dma == RxStart(w.dma, o.cookie).0;
  }

  lemma IrqRespects(w: World, id: nat, budget: nat, o: Choice)
    ensures Respects(w.dma, Dispatch(w, id, budget, o).dma)
  {
    if id == 2 {
      StartTxRespects(w, o);
    } else if id == 4 {
      IrqDataRespects(w, budget, o);
    } else if id == 6 {
      RxErrorRespects(w.dma, w.port, o.pause, o.keep);
      assert Dispatch(w, id, budget, o).dma == RxError(w.dma, w.port, o.pause, o.keep).0;
    } else if id == 12 {
      RxFlushRespects(w.dma, w.port, true, o.pause, o.keep);
      assert Dispatch(w, id, budget, o).dma == RxFlush(w.dma, w.port, true, o.pause, o.keep).0;
    }
  }

  lemma StartRespects(w: World, s: Step)
    requires Enabled(w, s) && (s.Kick? || s.SendX? || s.TxCallback?)
    ensures Respects(w.dma, Next(w, s).dma)
  {
    match s
    case Kick(o) => StartTxRespects(w.(kicks := w.kicks - 1), o);
    case SendX(b, o) => StartTxRespects(w.(port := w.port.(xchar := Some(b))), o);
    case TxCallback(o) => StartTxRespects(Moved(w, TxComplete(w.dma.(tx := w.dma.tx.(callback := false)), w.port)), o);
  }

  lemma RestartRespects(w: World, s: Step)
    requires Enabled(w, s) && (s.WorkFinish? || s.CfgEnd? || s.CfgGiveUp?)
    ensures Respects(w.dma, Next(w, s).dma)
  {
    match s
    case WorkFinish(o) =>
      var w1 := w.(dma := DmaModel.WorkFinish(w.dma, w.worker.tx, w.worker.rx).0, worker := Parked);
      StartTxRespects(if w.worker.rx then PioIn(w1, IRQ_BUDGET) else w1, o);
    case CfgEnd(o) => StartTxRespects(w.(dma := ConfigureEnd(w.dma, true).0, cfg := NoChange), o);
    case CfgGiveUp(o) =>
      StartTxRespects(w.(reported := Fallback(w.cfg.c), dma := ConfigureEnd(w.dma, false).0, cfg := NoChange), o);
  }

  lemma FlushRespects(w: World, s: Step)
    requires Enabled(w, s) && (s.StopRx? || s.CfgBegin? || s.WorkPrepare?)
    ensures Respects(w.dma, Next(w, s).dma)
  {
    var d := if s.StopRx? then w.dma.(st := w.dma.st.(receive := false))
             else if s.CfgBegin? then w.dma.(st := w.dma.st.(configuring := true))
             else w.dma;
    RxFlushRespects(d, w.port, !s.WorkPrepare?, s.o.pause, s.o.keep);
  }

  lemma OutputFlushRespects(w: World, o: Choice)
    ensures Respects(w.dma, Flushed(w, o).dma)
  {
  }

  lemma SyncRespects(w: World, s: Step)
    requires Enabled(w, s) && Synchronizing(s)
    ensures Respects(w.dma, Next(w, s).dma)
  {
  }

  lemma LifeRespects(w: World, s: Step)
    requires Enabled(w, s) && Administrative(s) && !s.Startup?
    ensures Respects(w.dma, Next(w, s).dma)
  {
  }

  lemma WireRespects(w: World, s: Step)
    requires Enabled(w, s)
    requires s.Arrive? || s.FifoReset? || s.RbrRead? || s.TxMove? || s.TxDone? || s.RxMove? || s.RxDone?
          || s.RxCallback? || s.Write? || s.StopOutput? || s.ResumeOutput?
    ensures Respects(w.dma, Next(w, s).dma)
  {
  }

  lemma StepRespects(w: World, s: Step)
    requires Enabled(w, s) && !s.Startup?
    ensures Respects(w.dma, Next(w, s).dma)
  {
    if s.Irq? {
      IrqRespects(w, s.id, s.budget, s.o);
    } else if s.Kick? || s.SendX? || s.TxCallback? {
      StartRespects(w, s);
    } else if s.WorkFinish? || s.CfgEnd? || s.CfgGiveUp? {
      RestartRespects(w, s);
    } else if s.StopRx? || s.CfgBegin? || s.WorkPrepare? {
      FlushRespects(w, s);
    } else if s.FlushBuffer? {
      OutputFlushRespects(w, s.o);
    } else if Synchronizing(s) {
      SyncRespects(w, s);
    } else if Administrative(s) {
      LifeRespects(w, s);
    } else {
      WireRespects(w, s);
    }
  }

  /**
   * Once a line error, a failed pause or a refused submit gave a direction up, or
   * receiving was stopped, no run within the session submits to it again.
   */
  lemma {:induction false} GivenUpForTheSession(w: World, run: seq<Step>)
    requires Legal(w, run) && WithinSession(run)
    ensures w.dma.st.rxFailed || !w.dma.st.receive ==> !SubmitsAlong(w, run, true)
    ensures w.dma.st.txFailed ==> !SubmitsAlong(w, run, false)
    decreases |run|
  {
    if run != [] {
      assert run[0] in run;
      StepRespects(w, run[0]);
      assert forall s :: s in run[1..] ==> s in run;
      GivenUpForTheSession(Next(w, run[0]), run[1..]);
    }
  }

  // ----- which steps give a direction up -----

  /** Receive DMA is over for the session. */
  predicate GoneRx(d: Dma) {
    d.st.rxFailed || !d.st.receive
  }

  /** The step ends DMA reception: a line error, a failed pause, a refused submit or the end of receiving. */
  predicate GivesUpRx(w: World, s: Step) {
    || (s.Irq? && s.id == 6)
    || s.StopRx?
    || s.Deactivate?
    || (Flushes(w, s) && !s.o.pause.Stable?)
    || (s.Irq? && s.id == 4 && w.dma.available && w.dma.st.active && w.dma.st.receive
        && w.dma.st.rx == Idle && !w.dma.st.configuring && s.o.cookie.None?)
  }

  /** A call of start_tx: the state it finds and what its environment answers. */
  datatype Start = Start(dma: Dma, port: Port, o: Choice)

  /** The call of start_tx that a step makes, if it makes one. */
  function StartOf(w: World, s: Step): Option<Start>
    requires Enabled(w, s)
  {
    match s
    case Kick(o) => if w.port.stopped then None else Some(Start(w.dma, w.port, o))
    case SendX(b, o) => Some(Start(w.dma, w.port.(xchar := Some(b)), o))
    case Irq(id, _, o) => if id == 2 then Some(Start(w.dma, w.port, o)) else None
    case TxCallback(o) =>
      var (d, p, completed) := TxComplete(w.dma.(tx := w.dma.tx.(callback := false)), w.port);
      if completed then Some(Start(d, p, o)) else None
    case WorkFinish(o) =>
      var (d, resume) := DmaModel.WorkFinish(w.dma, w.worker.tx, w.worker.rx);
      if resume && w.worker.tx then Some(Start(d, w.port, o)) else None
    case CfgEnd(o) =>
      var (d, resume) := ConfigureEnd(w.dma, true);
      if resume then Some(Start(d, w.port, o)) else None
    case CfgGiveUp(o) =>
      var (d, resume) := ConfigureEnd(w.dma, false);
      if resume then Some(Start(d, w.port, o)) else None
    case _ => None
  }

  /** start_tx would submit a block. */
  predicate Offers(d: Dma, p: Port) {
    && d.available && d.st.active && !d.st.configuring && d.st.tx == Idle
    && p.xchar.None? && !p.stopped && p.queue != []
  }

  /** The provider refuses the block that the step's call of start_tx offers it. */
  predicate GivesUpTx(w: World, s: Step)
    requires Enabled(w, s)
  {
    var c := StartOf(w, s);
    c.Some? && Offers(c.value.dma, c.value.port) && c.value.o.cookie.None?
  }

  /** The flags after a step: set before, or set by it. */
  ghost predicate GivesUpExactly(w: World, s: Step, d': Dma)
    requires Enabled(w, s)
  {
    && (GoneRx(d') <==> GoneRx(w.dma) || GivesUpRx(w, s))
    && (d'.st.txFailed <==> w.dma.st.txFailed || GivesUpTx(w, s))
  }

  lemma StartFlags(w: World, o: Choice)
    ensures var d' := StartTxIn(w, o).dma;
            && d'.st.rxFailed == w.dma.st.rxFailed && d'.st.receive == w.dma.st.receive
            && (d'.st.txFailed <==> w.dma.st.txFailed || (Offers(w.dma, w.port) && o.cookie.None?))
  {
  }

  lemma FlushFlags(d: Dma, p: Port, schedule: bool, pause: Pause, keep: bool)
    ensures var d' := RxFlush(d, p, schedule, pause, keep).0;
            && d'.st.receive == d.st.receive && d'.st.txFailed == d.st.txFailed
            && (d'.st.rxFailed <==> d.st.rxFailed || (d.available && d.st.rx == Running && !pause.Stable?))
  {
  }

  lemma IrqFlags(w: World, s: Step)
    requires Enabled(w, s) && s.Irq?
    ensures GivesUpExactly(w, s, Dispatch(w, s.id, s.budget, s.o).dma)
  {
    if s.id == 2 {
      StartFlags(w, s.o);
    } else if s.id == 4 {
      IrqDataRespects(w, s.budget, s.o);
    } else if s.id == 6 {
      FlushFlags(w.dma.(st := w.dma.st.(rxFailed := true)), w.port, true, s.o.pause, s.o.keep);
    } else if s.id == 12 {
      FlushFlags(w.dma, w.port, true, s.o.pause, s.o.keep);
    }
  }

  lemma StartStepFlags(w: World, s: Step)
    requires Enabled(w, s) && (s.Kick? || s.SendX?)
    ensures GivesUpExactly(w, s, Next(w, s).dma)
  {
    match s
    case Kick(o) => StartFlags(w.(kicks := w.kicks - 1), o);
    case SendX(b, o) => StartFlags(w.(port := w.port.(xchar := Some(b))), o);
  }

  lemma CallbackFlags(w: World, s: Step)
    requires Enabled(w, s) && s.TxCallback?
    ensures GivesUpExactly(w, s, Next(w, s).dma)
  {
    StartFlags(Moved(w, TxComplete(w.dma.(tx := w.dma.tx.(callback := false)), w.port)), s.o);
  }

  lemma FinishFlags(w: World, s: Step)
    requires Enabled(w, s) && s.WorkFinish?
    ensures GivesUpExactly(w, s, Next(w, s).dma)
  {
    var w1 := w.(dma := DmaModel.WorkFinish(w.dma, w.worker.tx, w.worker.rx).0, worker := Parked);
    StartFlags(if w.worker.rx then PioIn(w1, IRQ_BUDGET) else w1, s.o);
  }

  lemma EndFlags(w: World, s: Step)
    requires Enabled(w, s) && (s.CfgEnd? || s.CfgGiveUp?)
    ensures GivesUpExactly(w, s, Next(w, s).dma)
  {
    var w1 := if s.CfgGiveUp? then w.(reported := Fallback(w.cfg.c)) else w;
    StartFlags(w1.(dma := ConfigureEnd(w.dma, s.CfgEnd?).0, cfg := NoChange), s.o);
  }

  lemma FlushStepFlags(w: World, s: Step)
    requires Enabled(w, s) && (s.StopRx? || s.CfgBegin? || s.WorkPrepare?)
    ensures GivesUpExactly(w, s, Next(w, s).dma)
  {
    var d := if s.StopRx? then w.dma.(st := w.dma.st.(receive := false))
             else if s.CfgBegin? then w.dma.(st := w.dma.st.(configuring := true))
             else w.dma;
    FlushFlags(d, w.port, !s.WorkPrepare?, s.o.pause, s.o.keep);
  }

  lemma WorkFlags(w: World, s: Step)
    requires Enabled(w, s) && (s.WorkStart? || s.WorkSyncTx? || s.WorkSyncRx?)
    ensures GivesUpExactly(w, s, Next(w, s).dma)
  {
  }

  lemma ConfigureFlags(w: World, s: Step)
    requires Enabled(w, s) && (s.CfgDrained? || s.CfgCancel? || s.CfgSyncTx? || s.CfgSyncRx? || s.CfgApply?)
    ensures GivesUpExactly(w, s, Next(w, s).dma)
  {
  }

  lemma CloseFlags(w: World, s: Step)
    requires Enabled(w, s) && (s.Deactivate? || s.CloseWork? || s.CloseTx? || s.CloseRx?)
    ensures GivesUpExactly(w, s, Next(w, s).dma)
  {
  }

  lemma WireFlags(w: World, s: Step)
    requires Enabled(w, s)
    requires s.Arrive? || s.FifoReset? || s.RbrRead? || s.TxMove? || s.TxDone? || s.RxMove? || s.RxDone?
          || s.RxCallback? || s.Write? || s.StopOutput? || s.ResumeOutput? || s.FlushBuffer?
    ensures GivesUpExactly(w, s, Next(w, s).dma)
  {
  }

  /** These are the only steps that give a direction up, and they always do. */
  lemma StepFlags(w: World, s: Step)
    requires Enabled(w, s) && !s.Startup?
    ensures GivesUpExactly(w, s, Next(w, s).dma)
  {
    if s.Irq? {
      IrqFlags(w, s);
    } else if s.Kick? || s.SendX? {
      StartStepFlags(w, s);
    } else if s.TxCallback? {
      CallbackFlags(w, s);
    } else if s.WorkFinish? {
      FinishFlags(w, s);
    } else if s.CfgEnd? || s.CfgGiveUp? {
      EndFlags(w, s);
    } else if s.StopRx? || s.CfgBegin? || s.WorkPrepare? {
      FlushStepFlags(w, s);
    } else if s.WorkStart? || s.WorkSyncTx? || s.WorkSyncRx? {
      WorkFlags(w, s);
    } else if s.CfgDrained? || s.CfgCancel? || s.CfgSyncTx? || s.CfgSyncRx? || s.CfgApply? {
      ConfigureFlags(w, s);
    } else if Administrative(s) {
      CloseFlags(w, s);
    } else {
      WireFlags(w, s);
    }
  }

  /**
   * A step gives a direction up exactly as stated, wherever start_tx is called from, and
   * after such a step no run of the session submits to that direction again.
   */
  lemma GivesUpForTheSession(w: World, s: Step, run: seq<Step>)
    requires Enabled(w, s) && !s.Startup? && Legal(Next(w, s), run) && WithinSession(run)
    ensures GivesUpExactly(w, s, Next(w, s).dma)
    ensures GivesUpRx(w, s) ==> !SubmitsAlong(Next(w, s), run, true)
    ensures GivesUpTx(w, s) ==> !SubmitsAlong(Next(w, s), run, false)
  {
    StepFlags(w, s);
    GivenUpForTheSession(Next(w, s), run);
  }
}
