// Every enabled step keeps the invariant, except the one hazardous flush, and
// with it every run does.

module UartSteps {
  import opened Common
  import opened DmaModel
  import opened ReceiveHistory
  import opened UartModel
  import opened UartInvariant

  // ----- the wire and the DMA engines -----

  lemma ArriveKeeps(w: World, b: Byte)
    requires Inv(w)
    ensures Inv(Arrived(w, b))
  {
  }

  lemma FifoResetKeeps(w: World)
    requires Inv(w)
    ensures Inv(FifoCleared(w))
  {
    var fifo := w.hw.fifo;
    assert fifo[..|fifo|] == fifo && fifo[|fifo|..] == [];
    WasteKeeps(w.dma, w.port, fifo, |fifo|, Reset);
    SameTxKeeps(w.dma, w.dma, w.port, FifoCleared(w).port, w.out);
  }

  lemma ByteSkippedKeeps(w: World)
    requires Inv(w)
    ensures Inv(ByteSkipped(w))
  {
    if w.hw.fifo != [] {
      WasteKeeps(w.dma, w.port, w.hw.fifo, 1, Eaten);
      SameTxKeeps(w.dma, w.dma, w.port, ByteSkipped(w).port, w.out);
    }
  }

  lemma TxMoveParts(d: Dma, p: Port, out: TxLog, dlab: bool)
    requires TxShape(d) && TxLedger(d, p, out) && d.tx.live && d.tx.done < d.tx.size
    ensures var d' := d.(tx := d.tx.(done := d.tx.done + 1));
            && TxShape(d')
            && TxLedger(d', p, Handed(out, [d.tx.mem[d.tx.done]], dlab))
  {
  }

  lemma TxMoveKeeps(w: World)
    requires Inv(w) && Enabled(w, TxMove)
    ensures Inv(TxMoved(w))
  {
    TxMoveParts(w.dma, w.port, w.out, w.hw.dlab);
    var w' := TxMoved(w);
    assert RxShape(w'.dma) && RxLedger(w'.dma, w'.port, w'.hw.fifo);
  }

  lemma TxDoneKeeps(w: World)
    requires Inv(w) && Enabled(w, TxDone)
    ensures Inv(TxCompleted(w))
  {
  }

  lemma FirstMoves(f: seq<Byte>, g: seq<Byte>, fifo: seq<Byte>)
    requires fifo != []
    ensures f + g + fifo == f + (g + [fifo[0]]) + fifo[1..]
  {
  }

  lemma RxMoveParts(d: Dma, p: Port, fifo: seq<Byte>)
    requires RxShape(d) && RxLedger(d, p, fifo) && d.rx.live && d.rx.done < d.rx.size && fifo != []
    ensures var d' := d.(rx := d.rx.(mem := d.rx.mem + [fifo[0]], done := d.rx.done + 1));
            var p' := p.(log := p.log.(flight := p.log.flight + [Fate(fifo[0], Buffered)]));
            RxShape(d') && RxLedger(d', p', fifo[1..])
  {
    LoadHonest(p.log, fifo[0]);
    FirstMoves(Bytes(p.log.fate), Bytes(p.log.flight), fifo);
  }

  lemma RxMoveKeeps(w: World)
    requires Inv(w) && Enabled(w, RxMove)
    ensures Inv(RxMoved(w))
  {
    RxMoveParts(w.dma, w.port, w.hw.fifo);
    var w' := RxMoved(w);
    SameTxKeeps(w.dma, w'.dma, w.port, w'.port, w.out);
  }

  lemma RxDoneKeeps(w: World)
    requires Inv(w) && Enabled(w, RxDone)
    ensures Inv(RxCompleted(w))
  {
  }

  // ----- serial core -----

  lemma AppendBehind(s: seq<Byte>, a: seq<Byte>, b: seq<Byte>, c: seq<Byte>)
    ensures (s + (a + b)) + c == s + (a + (b + c))
    ensures (s + b) + c == s + (b + c)
    ensures IsPrefix(s, s + (a + (b + c))) && IsPrefix(s, s + (b + c))
  {
  }

  lemma AppendSlices(q: seq<Byte>, bytes: seq<Byte>, k: nat)
    requires k <= |q|
    ensures (q + bytes)[..k] == q[..k] && (q + bytes)[k..] == q[k..] + bytes
  {
  }

  lemma WriteLedger(d: Dma, p: Port, out: TxLog, bytes: seq<Byte>)
    requires TxShape(d) && TxLedger(d, p, out) && d.st.active
    ensures TxLedger(d, p.(queue := p.queue + bytes), out.(written := out.written + bytes))
  {
    if d.st.tx == Running {
      AppendSlices(p.queue, bytes, d.st.txLen);
      AppendBehind(out.sent, d.tx.mem[d.tx.done..], p.queue[d.st.txLen..], bytes);
    } else {
      AppendBehind(out.sent, [], p.queue, bytes);
    }
  }

  lemma WriteKeeps(w: World, bytes: seq<Byte>)
    requires Inv(w) && w.life.Open?
    ensures Inv(Written(w, bytes))
  {
    WriteLedger(w.dma, w.port, w.out, bytes);
  }

  /** The shapes that do not look at the ledgers. */
  ghost predicate Shapes(w: World) {
    && WorkShape(w.dma, w.worker, w.cfg)
    && CfgShape(w.dma, w.worker, w.life, w.cfg)
    && LifeShape(w.dma, w.hw, w.worker, w.life)
    && LatchShape(w.dma, w.hw, w.cfg)
  }

  lemma StartTxShapes(w: World, w': World)
    requires SameRx(w, w') && w.dma.st.active && Shapes(w)
    requires w.dma.st.tx != Idle || w.dma.st.configuring ==> w'.dma == w.dma
    requires TxShape(w.dma) && TxShape(w'.dma)
    requires w'.dma.st.tx == Stopping ==> w.dma.st.tx == Stopping
    ensures Shapes(w')
  {
  }

  /** start_tx inside a section whose other parts already satisfy the invariant. */
  lemma StartTxInv(w: World, o: Choice)
    requires w.dma.st.active && Shapes(w)
    requires TxShape(w.dma) && TxLedger(w.dma, w.port, w.out)
    requires RxShape(w.dma) && RxLedger(w.dma, w.port, w.hw.fifo)
    ensures Inv(StartTxIn(w, o))
  {
    StartTxKeeps(w, o);
    StartTxFrame(w, o);
    SameRxKeeps(w, StartTxIn(w, o));
    StartTxShapes(w, StartTxIn(w, o));
  }

  lemma KickKeeps(w: World, o: Choice)
    requires Inv(w) && w.life.Open? && w.kicks > 0
    ensures Inv(Kicked(w, o))
  {
    if !w.port.stopped {
      StartTxInv(w.(kicks := w.kicks - 1), o);
    }
  }

  lemma FlushFrame(d: Dma, keep: bool)
    requires TxShape(d) && d.st.active
    ensures var d' := TxFlush(d, keep);
            && TxShape(d')
            && d' == d.(tx := d'.tx, armed := d'.armed, st := d.st.(tx := d'.st.tx, txLen := d'.st.txLen))
            && d'.st.tx != Running
            && (Quiet(d.tx) ==> Quiet(d'.tx))
            && (if d.st.tx == Idle then d' == d else d'.st.tx == Stopping && d'.armed)
  {
  }

  lemma FlushParts(d: Dma, p: Port, out: TxLog, keep: bool)
    requires TxShape(d) && TxLedger(d, p, out) && d.st.active
    ensures var d' := TxFlush(d, keep);
            && TxShape(d')
            && TxLedger(d', p.(queue := []), NextEpoch(out))
            && d' == d.(tx := d'.tx, armed := d'.armed, st := d.st.(tx := d'.st.tx, txLen := d'.st.txLen))
            && (d'.st.tx == Running ==> d.st.tx == Running)
            && (Quiet(d.tx) ==> Quiet(d'.tx))
            && (if d.st.tx == Idle then d' == d else d'.st.tx == Stopping && d'.armed)
  {
    FlushFrame(d, keep);
  }

  /** An output flush keeps the invariant exactly when it is not the hazardous one. */
  lemma FlushKeepsIff(w: World, o: Choice)
    requires Inv(w) && w.life.Open?
    ensures Inv(Flushed(w, o)) <==> !Hazard(w, FlushBuffer(o))
  {
    FlushParts(w.dma, w.port, w.out, o.keep);
    var w' := Flushed(w, o);
    assert RxShape(w'.dma) && RxLedger(w'.dma, w'.port, w'.hw.fifo);
  }

  /** A receive flush right after the section changed `receive` or `configuring`. */
  lemma FlushedHalves(w: World, d: Dma, o: Choice)
    requires Inv(w)
    requires d == w.dma.(st := w.dma.st.(receive := d.st.receive, configuring := d.st.configuring))
    ensures var r := RxFlush(d, w.port, true, o.pause, o.keep);
            && TxShape(r.0) && TxLedger(r.0, r.1, w.out)
            && RxShape(r.0) && RxLedger(r.0, r.1, w.hw.fifo)
            && r.0.st.rx != Running
  {
    RxFlushKeeps(d, w.port, w.hw.fifo, true, o.pause, o.keep);
    RxFlushFrame(d, w.port, true, o.pause, o.keep);
    var r := RxFlush(d, w.port, true, o.pause, o.keep);
    SameTxKeeps(w.dma, r.0, w.port, r.1, w.out);
  }

  lemma StopRxKeeps(w: World, o: Choice)
    requires Inv(w) && w.life.Open?
    ensures Inv(RxStopped(w, o))
  {
    var d0 := w.dma.(st := w.dma.st.(receive := false));
    FlushedHalves(w, d0, o);
    RxFlushFrame(d0, w.port, true, o.pause, o.keep);
  }

  // ----- interrupt handler -----

  /** The invariant of a port whose receive half was just flushed or restarted. */
  lemma RxStartKeeps(w: World, o: Choice)
    requires Inv(w) && w.hw.ierRx && !w.hw.dlab
    ensures var (d, owned) := RxStart(w.dma, o.cookie);
            Inv(w.(dma := d)) && (!owned ==> d.st.rx != Running)
  {
    var (d, owned) := RxStart(w.dma, o.cookie);
    SameTxKeeps(w.dma, d, w.port, w.port, w.out);
    assert w.port.log.gapLen > 0 ==> w.dma.st.rxFailed;
  }

  lemma PioInv(w: World, budget: nat)
    requires Inv(w) && w.dma.st.rx != Running
    ensures Inv(PioIn(w, budget))
  {
    PioKeeps(w.dma, w.port, w.hw, budget);
    var w' := PioIn(w, budget);
    SameTxKeeps(w.dma, w'.dma, w.port, w'.port, w.out);
  }

  lemma RxFlushInv(w: World, o: Choice)
    requires Inv(w)
    ensures var r := RxFlush(w.dma, w.port, true, o.pause, o.keep);
            Inv(Moved(w, r)) && r.0.st.rx != Running
  {
    RxFlushKeeps(w.dma, w.port, w.hw.fifo, true, o.pause, o.keep);
    RxFlushFrame(w.dma, w.port, true, o.pause, o.keep);
    var w' := Moved(w, RxFlush(w.dma, w.port, true, o.pause, o.keep));
    SameTxKeeps(w.dma, w'.dma, w.port, w'.port, w.out);
  }

  lemma FailedInv(w: World)
    requires Inv(w)
    ensures Inv(w.(dma := w.dma.(st := w.dma.st.(rxFailed := true))))
  {
  }

  lemma DummyInv(w: World)
    requires Inv(w) && w.dma.st.rx != Running
    ensures Inv(DummyIn(w, None))
  {
    DummyKeeps(w.dma, w.port, w.hw);
    var w' := DummyIn(w, None);
    SameTxKeeps(w.dma, w'.dma, w.port, w'.port, w.out);
  }

  lemma TimeoutInv(w: World, budget: nat, marker: bool, late: Option<Byte>)
    requires Inv(w) && w.dma.st.rx != Running
    ensures Inv(TimeoutPio(w, budget, marker, late))
  {
    if PioRead(w.hw, budget, marker) {
      PioInv(w, budget);
    } else if late.Some? {
      ArriveKeeps(w, late.value);
      DummyInv(Arrived(w, late.value));
    } else {
      DummyInv(w);
    }
  }

  lemma IrqDataKeeps(w: World, budget: nat, o: Choice)
    requires Inv(w) && w.hw.ierRx && !w.hw.dlab
    ensures Inv(Dispatch(w, 4, budget, o))
  {
    RxStartKeeps(w, o);
    var (d, owned) := RxStart(w.dma, o.cookie);
    if !owned {
      PioInv(w.(dma := d), budget);
    }
  }

  lemma IrqErrorKeeps(w: World, budget: nat, o: Choice)
    requires Inv(w)
    ensures Inv(Dispatch(w, 6, budget, o))
  {
    FailedInv(w);
    var w1 := w.(dma := w.dma.(st := w.dma.st.(rxFailed := true)));
    RxFlushInv(w1, o);
    var r := RxError(w.dma, w.port, o.pause, o.keep);
    assert Moved(w, r) == Moved(w1, r);
    if r.2 {
      PioInv(Moved(w, r), budget);
    }
  }

  lemma IrqTimeoutKeeps(w: World, budget: nat, o: Choice)
    requires Inv(w)
    ensures Inv(Dispatch(w, 12, budget, o))
  {
    RxFlushInv(w, o);
    var r := RxFlush(w.dma, w.port, true, o.pause, o.keep);
    if r.2 {
      TimeoutInv(Moved(w, r), budget, o.marker, o.late);
    }
  }

  lemma IrqKeeps(w: World, id: nat, budget: nat, o: Choice)
    requires Inv(w) && Enabled(w, Irq(id, budget, o))
    ensures Inv(Dispatch(w, id, budget, o))
  {
    if id == 2 {
      StartTxInv(w, o);
    } else if id == 4 {
      IrqDataKeeps(w, budget, o);
    } else if id == 6 {
      IrqErrorKeeps(w, budget, o);
    } else if id == 12 {
      IrqTimeoutKeeps(w, budget, o);
    }
  }

  // ----- completion callbacks -----

  lemma TxCompleteParts(d: Dma, p: Port, out: TxLog)
    requires TxShape(d) && TxLedger(d, p, out) && d.tx.callback
    ensures var d0 := d.(tx := d.tx.(callback := false));
            var (d', p', completed) := TxComplete(d0, p);
            && TxShape(d') && TxLedger(d', p', out)
            && d' == d.(tx := d'.tx, st := d.st.(tx := d'.st.tx, txLen := d'.st.txLen))
            && p' == p.(queue := p'.queue)
            && Quiet(d'.tx)
            && (completed ==> d.st.active && d.st.tx == Running && d'.st.tx == Idle)
            && (!completed ==> d'.st == d.st && p' == p)
  {
  }

  lemma TxCallbackKeeps(w: World, o: Choice)
    requires Inv(w) && w.dma.tx.callback
    ensures Inv(TxCalledBack(w, o))
  {
    TxCompleteParts(w.dma, w.port, w.out);
    var r := TxComplete(w.dma.(tx := w.dma.tx.(callback := false)), w.port);
    var w1 := Moved(w, r);
    assert RxShape(w1.dma) && RxLedger(w1.dma, w1.port, w1.hw.fifo);
    if r.2 {
      StartTxInv(w1, o);
    }
  }

  lemma RxCompleteParts(d: Dma, p: Port, fifo: seq<Byte>)
    requires RxShape(d) && RxLedger(d, p, fifo) && d.rx.callback
    ensures var d0 := d.(rx := d.rx.(callback := false));
            var (d', p', completed) := RxComplete(d0, p);
            && RxShape(d') && RxLedger(d', p', fifo)
            && d' == d.(rx := d'.rx, st := d.st.(rx := d'.st.rx, rxCpuSafe := d'.st.rxCpuSafe))
            && p' == p.(tty := p'.tty, log := p'.log)
            && Quiet(d'.rx)
            && (completed ==> d.st.rx == Running && d'.st.rx == Idle)
            && (!completed ==> d'.st == d.st)
  {
    if d.available && d.st.active && d.st.rx == Running {
      EndedLedger(d, RxComplete(d.(rx := d.rx.(callback := false)), p).0, p, fifo, true);
    }
  }

  lemma RxCallbackKeeps(w: World)
    requires Inv(w) && w.dma.rx.callback
    ensures Inv(RxCalledBack(w))
  {
    RxCompleteParts(w.dma, w.port, w.hw.fifo);
    var w' := RxCalledBack(w);
    SameTxKeeps(w.dma, w'.dma, w.port, w'.port, w.out);
  }

  // ----- delayed worker -----

  lemma WorkStartKeeps(w: World)
    requires Inv(w) && Enabled(w, WorkStart)
    ensures Inv(Next(w, WorkStart))
  {
  }

  lemma WorkPrepareKeeps(w: World, o: Choice)
    requires Inv(w) && w.worker.Started?
    ensures Inv(WorkPrepared(w, o))
  {
    RxFlushKeeps(w.dma, w.port, w.hw.fifo, false, o.pause, o.keep);
    RxFlushFrame(w.dma, w.port, false, o.pause, o.keep);
    var w' := WorkPrepared(w, o);
    SameTxKeeps(w.dma, w'.dma, w.port, w'.port, w.out);
  }

  lemma StopSyncParts(d: Dma, p: Port, out: TxLog, fifo: seq<Byte>, tx: bool, rx: bool)
    requires TxShape(d) && TxLedger(d, p, out) && RxShape(d) && RxLedger(d, p, fifo)
    requires tx ==> !d.st.active || d.st.tx != Running
    requires rx ==> !d.st.active || d.st.rx != Running
    ensures var d' := Synchronized(d, tx, rx);
            && TxShape(d') && TxLedger(d', p, out) && RxShape(d') && RxLedger(d', p, fifo)
            && d'.st == d.st && d'.armed == d.armed && d'.available == d.available
            && (tx ==> Quiet(d'.tx)) && (rx ==> Quiet(d'.rx))
            && (Quiet(d.tx) ==> Quiet(d'.tx)) && (Quiet(d.rx) ==> Quiet(d'.rx))
            && (!tx ==> d'.tx == d.tx) && (!rx ==> d'.rx == d.rx)
  {
  }

  lemma WorkSyncKeeps(w: World, s: Step)
    requires Inv(w) && Enabled(w, s) && (s.WorkSyncTx? || s.WorkSyncRx?)
    ensures Inv(Next(w, s))
  {
  }

  /** What a finished synchronization leaves: the chosen directions are Idle again. */
  lemma IdleParts(d: Dma, p: Port, out: TxLog, fifo: seq<Byte>, tx: bool, rx: bool)
    requires TxShape(d) && TxLedger(d, p, out) && RxShape(d) && RxLedger(d, p, fifo)
    requires tx ==> d.st.tx != Running && Quiet(d.tx)
    requires rx ==> d.st.rx != Running && Quiet(d.rx)
    ensures var d' := DmaModel.WorkFinish(d, tx, rx).0;
            TxShape(d') && TxLedger(d', p, out) && RxShape(d') && RxLedger(d', p, fifo)
  {
  }

  lemma WorkFinishKeeps(w: World, o: Choice)
    requires Inv(w) && w.worker.Synced?
    ensures Inv(FinishWork(w, o))
  {
    var tx, rx := w.worker.tx, w.worker.rx;
    IdleParts(w.dma, w.port, w.out, w.hw.fifo, tx, rx);
    var (d, resume) := DmaModel.WorkFinish(w.dma, tx, rx);
    var w1 := w.(dma := d, worker := Parked);
    if resume {
      var w2 := if rx then PioIn(w1, IRQ_BUDGET) else w1;
      if rx {
        PioKeeps(w1.dma, w1.port, w1.hw, IRQ_BUDGET);
        SameTxKeeps(w1.dma, w2.dma, w1.port, w2.port, w1.out);
      }
      if tx {
        StartTxInv(w2, o);
      }
    }
  }

  // ----- termios -----

  lemma CfgBeginKeeps(w: World, c: Change, o: Choice)
    requires Inv(w) && w.life.Open? && w.cfg.NoChange?
    ensures Inv(ConfigureBegun(w, c, o))
  {
    var d0 := w.dma.(st := w.dma.st.(configuring := true));
    FlushedHalves(w, d0, o);
    RxFlushFrame(d0, w.port, true, o.pause, o.keep);
  }

  lemma CfgWaitKeeps(w: World, s: Step)
    requires Inv(w) && Enabled(w, s) && (s.CfgDrained? || s.CfgCancel? || s.CfgApply?)
    ensures Inv(Next(w, s))
  {
    var w' := Next(w, s);
    SameTxKeeps(w.dma, w'.dma, w.port, w'.port, w.out);
  }

  lemma CfgSyncKeeps(w: World, s: Step)
    requires Inv(w) && Enabled(w, s) && (s.CfgSyncTx? || s.CfgSyncRx?)
    ensures Inv(Next(w, s))
  {
    StopSyncParts(w.dma, w.port, w.out, w.hw.fifo, s.CfgSyncTx?, s.CfgSyncRx?);
  }

  lemma CfgEndKeeps(w: World, synchronized: bool, o: Choice)
    requires Inv(w) && (if synchronized then w.cfg.Applied? else w.cfg.Begun?)
    ensures Inv(EndConfigure(w, synchronized, o))
  {
    IdleParts(w.dma, w.port, w.out, w.hw.fifo, synchronized, synchronized);
    var (d, resume) := ConfigureEnd(w.dma, synchronized);
    var d0 := DmaModel.WorkFinish(w.dma, synchronized, synchronized).0;
    assert d == d0.(st := d0.st.(configuring := false));
    SameTxKeeps(d0, d, w.port, w.port, w.out);
    assert RxShape(d) && RxLedger(d, w.port, w.hw.fifo);
    StartTxInv(w.(dma := d, cfg := NoChange), o);
  }

  // ----- life cycle -----

  lemma StartupKeeps(w: World)
    requires Inv(w) && w.life.Closed?
    ensures Inv(Opened(w))
  {
  }

  lemma DeactivateKeeps(w: World)
    requires Inv(w) && w.life.Open? && w.cfg.NoChange?
    ensures Inv(ShutDown(w))
  {
  }

  lemma CloseWorkKeeps(w: World)
    requires Inv(w) && Enabled(w, CloseWork)
    ensures Inv(Next(w, CloseWork))
  {
  }

  lemma CloseSyncKeeps(w: World, s: Step)
    requires Inv(w) && Enabled(w, s) && (s.CloseTx? || s.CloseRx?)
    ensures Inv(Next(w, s))
  {
  }

  // ----- every step, every run -----

  lemma GiveUpKeeps(w: World, o: Choice)
    requires Inv(w) && w.cfg.Begun?
    ensures Inv(EndConfigure(w.(reported := Fallback(w.cfg.c)), false, o))
  {
    var w1 := w.(reported := Fallback(w.cfg.c));
    SameTxKeeps(w.dma, w1.dma, w.port, w1.port, w.out);
    CfgEndKeeps(w1, false, o);
  }

  lemma WireStepKeeps(w: World, s: Step)
    requires Inv(w) && Enabled(w, s)
    requires s.Arrive? || s.FifoReset? || s.RbrRead? || s.TxMove? || s.TxDone? || s.RxMove? || s.RxDone?
    ensures Inv(Next(w, s))
  {
    match s
    case Arrive(b) => ArriveKeeps(w, b);
    case FifoReset => FifoResetKeeps(w);
    case RbrRead => ByteSkippedKeeps(w);
    case TxMove => TxMoveKeeps(w);
    case TxDone => TxDoneKeeps(w);
    case RxMove => RxMoveKeeps(w);
    case RxDone => RxDoneKeeps(w);
  }

  lemma OutputStepKeeps(w: World, s: Step)
    requires Inv(w) && Enabled(w, s) && (s.Write? || s.Kick? || s.SendX?)
    ensures Inv(Next(w, s))
  {
    match s
    case Write(bytes) => WriteKeeps(w, bytes);
    case Kick(o) => KickKeeps(w, o);
    case SendX(b, o) =>
      var w1 := w.(port := w.port.(xchar := Some(b)));
      SameTxKeeps(w.dma, w1.dma, w.port, w1.port, w.out);
      StartTxInv(w1, o);
  }

  lemma FlowStepKeeps(w: World, s: Step)
    requires Inv(w) && Enabled(w, s) && (s.StopOutput? || s.ResumeOutput?)
    ensures Inv(Next(w, s))
  {
  }

  lemma FlushStepKeeps(w: World, s: Step)
    requires Inv(w) && Enabled(w, s) && !Hazard(w, s) && (s.FlushBuffer? || s.StopRx?)
    ensures Inv(Next(w, s))
  {
    match s
    case FlushBuffer(o) => FlushKeepsIff(w, o);
    case StopRx(o) => StopRxKeeps(w, o);
  }

  lemma InterruptStepKeeps(w: World, s: Step)
    requires Inv(w) && Enabled(w, s) && (s.Irq? || s.TxCallback? || s.RxCallback?)
    ensures Inv(Next(w, s))
  {
    match s
    case Irq(id, budget, o) => IrqKeeps(w, id, budget, o);
    case TxCallback(o) => TxCallbackKeeps(w, o);
    case RxCallback => RxCallbackKeeps(w);
  }

  lemma WorkStepKeeps(w: World, s: Step)
    requires Inv(w) && Enabled(w, s) && (s.WorkPrepare? || s.WorkFinish?)
    ensures Inv(Next(w, s))
  {
    match s
    case WorkPrepare(o) => WorkPrepareKeeps(w, o);
    case WorkFinish(o) => WorkFinishKeeps(w, o);
  }

  lemma CfgStepKeeps(w: World, s: Step)
    requires Inv(w) && Enabled(w, s) && (s.CfgBegin? || s.CfgEnd? || s.CfgGiveUp?)
    ensures Inv(Next(w, s))
  {
    match s
    case CfgBegin(c, o) => CfgBeginKeeps(w, c, o);
    case CfgEnd(o) => CfgEndKeeps(w, true, o);
    case CfgGiveUp(o) => GiveUpKeeps(w, o);
  }

  lemma WorkerStepKeeps(w: World, s: Step)
    requires Inv(w) && Enabled(w, s)
    requires s.WorkStart? || s.WorkPrepare? || s.WorkSyncTx? || s.WorkSyncRx? || s.WorkFinish?
    ensures Inv(Next(w, s))
  {
    if s.WorkStart? {
      WorkStartKeeps(w);
    } else if s.WorkSyncTx? || s.WorkSyncRx? {
      WorkSyncKeeps(w, s);
    } else {
      WorkStepKeeps(w, s);
    }
  }

  lemma TermiosStepKeeps(w: World, s: Step)
    requires Inv(w) && Enabled(w, s)
    requires s.CfgBegin? || s.CfgDrained? || s.CfgCancel? || s.CfgSyncTx? || s.CfgSyncRx?
          || s.CfgApply? || s.CfgEnd? || s.CfgGiveUp?
    ensures Inv(Next(w, s))
  {
    if s.CfgSyncTx? || s.CfgSyncRx? {
      CfgSyncKeeps(w, s);
    } else if s.CfgDrained? || s.CfgCancel? || s.CfgApply? {
      CfgWaitKeeps(w, s);
    } else {
      CfgStepKeeps(w, s);
    }
  }

  lemma LifeStepKeeps(w: World, s: Step)
    requires Inv(w) && Enabled(w, s)
    requires s.Startup? || s.Deactivate? || s.CloseWork? || s.CloseTx? || s.CloseRx?
    ensures Inv(Next(w, s))
  {
    if s.Startup? {
      StartupKeeps(w);
    } else if s.Deactivate? {
      DeactivateKeeps(w);
    } else if s.CloseWork? {
      CloseWorkKeeps(w);
    } else {
      CloseSyncKeeps(w, s);
    }
  }

  /** The inductive step of every safety claim. */
  lemma StepKeeps(w: World, s: Step)
    requires Inv(w) && Enabled(w, s) && !Hazard(w, s)
    ensures Inv(Next(w, s))
  {
    if s.Arrive? || s.FifoReset? || s.RbrRead? || s.TxMove? || s.TxDone? || s.RxMove? || s.RxDone? {
      WireStepKeeps(w, s);
    } else if s.Write? || s.Kick? || s.SendX? {
      OutputStepKeeps(w, s);
    } else if s.StopOutput? || s.ResumeOutput? {
      FlowStepKeeps(w, s);
    } else if s.FlushBuffer? || s.StopRx? {
      FlushStepKeeps(w, s);
    } else if s.Irq? || s.TxCallback? || s.RxCallback? {
      InterruptStepKeeps(w, s);
    } else if s.WorkStart? || s.WorkPrepare? || s.WorkSyncTx? || s.WorkSyncRx? || s.WorkFinish? {
      WorkerStepKeeps(w, s);
    } else if s.Startup? || s.Deactivate? || s.CloseWork? || s.CloseTx? || s.CloseRx? {
      LifeStepKeeps(w, s);
    } else {
      TermiosStepKeeps(w, s);
    }
  }

  lemma {:induction false} RunKeeps(w: World, run: seq<Step>)
    requires Inv(w) && Legal(w, run) && Tame(w, run)
    ensures Inv(Exec(w, run))
    decreases |run|
  {
    if run != [] {
      StepKeeps(w, run[0]);
      RunKeeps(Next(w, run[0]), run[1..]);
    }
  }
}
