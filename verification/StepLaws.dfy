// What each step does to the data, stated step by step without the functions that do it:
// which bytes a call of start_tx hands over or submits, and which bytes reach the TTY.

module StepLaws {
  import opened Common
  import opened DmaModel
  import opened PioLaws
  import opened InterruptLoop
  import opened UartModel
  import opened UartInvariant
  import opened UartTheorems
  import opened ProtocolTheorems
  import opened ReceiveTheorems
  import opened SessionTheorem

  // ----- transmit: every call of start_tx -----

  /** A block can be offered to the channel, and the provider takes it. */
  predicate Submitted(c: Start) {
    Offers(c.dma, c.port) && !c.dma.st.txFailed && c.o.cookie.Some?
  }

  /** DMA owns the transmit path after the call. */
  predicate Owned(c: Start) {
    c.dma.available && c.dma.st.active && (c.dma.st.configuring || c.dma.st.tx != Idle || Submitted(c))
  }

  /** The channel carries the first 256 bytes of the queue, or all of it. */
  ghost predicate Carries(c: Start, d': Dma)
    requires c.o.cookie.Some?
  {
    var n := if |c.port.queue| <= 256 then |c.port.queue| else 256;
    && d'.st.tx == Running && d'.st.txLen == n && d'.st.txCookie == c.o.cookie.value
    && d'.tx == Channel(true, false, false, c.port.queue[..n], n, 0, c.o.cookie.value)
  }

  /**
   * A call of start_tx. Either DMA owns the path: nothing is handed over, the transmit
   * interrupt is masked, and a block that could be submitted is. Or the free slots take what
   * they can, and the interrupt stays enabled exactly if no slot is left over.
   */
  ghost predicate StartsAs(c: Start, out: TxLog, w': World) {
    if Owned(c) then
      && !w'.hw.ierTx && w'.out.sent == out.sent
      && w'.port.queue == c.port.queue && w'.port.xchar == c.port.xchar
      && (if !c.dma.st.configuring && c.dma.st.tx == Idle then Carries(c, w'.dma)
          else w'.dma.tx == c.dma.tx && w'.dma.st.tx == c.dma.st.tx)
    else
      && IsPrefix(out.sent, w'.out.sent)
      && TakesHead(c.port, c.o.room, w'.port, w'.out.sent[|out.sent|..])
      && w'.hw.ierTx == !SlotLeft(c.port, c.o.room)
      && w'.dma.st.tx == c.dma.st.tx
  }

  /** What the steps that do not call start_tx do to output and queue. */
  ghost predicate LeavesOutput(w: World, s: Step, w': World)
    requires Enabled(w, s)
  {
    && w'.out.sent == (if s.TxMove? then w.out.sent + [w.dma.tx.mem[w.dma.tx.done]]
                       else if s.FlushBuffer? || s.Startup? then [] else w.out.sent)
    && w'.port.queue == (if s.Write? then w.port.queue + s.bytes
                         else if s.FlushBuffer? || s.Startup? then [] else w.port.queue)
    && w'.port.xchar == w.port.xchar
    && w'.port.stopped == (if s.StopOutput? then true else if s.ResumeOutput? then false else w.port.stopped)
    && w'.hw.ierTx == (w.hw.ierTx && !(s.StopOutput? || s.FlushBuffer? || s.Startup? || s.Deactivate?))
  }

  /** How a step treats the transmit side. */
  ghost predicate TxLaw(w: World, s: Step, w': World)
    requires Enabled(w, s)
  {
    match StartOf(w, s)
    case Some(c) => StartsAs(c, w.out, w')
    case None => LeavesOutput(w, s, w')
  }

  lemma OwnedIff(d: Dma, p: Port, o: Choice)
    ensures var (d', owned) := TxStart(d, p, o.cookie);
            var c := Start(d, p, o);
            && (owned <==> Owned(c))
            && (!owned ==> d'.st.tx == d.st.tx)
            && (owned && !d.st.configuring && d.st.tx == Idle ==> Carries(c, d'))
            && (owned && (d.st.configuring || d.st.tx != Idle) ==> d' == d)
  {
  }

  lemma Appended(a: seq<Byte>, b: seq<Byte>)
    ensures IsPrefix(a, a + b) && (a + b)[|a|..] == b && a + [] == a
  {
  }

  lemma DmaStarts(w: World, o: Choice)
    requires Owned(Start(w.dma, w.port, o))
    ensures var w' := StartTxIn(w, o);
            && w'.dma == TxStart(w.dma, w.port, o.cookie).0 && w'.port == w.port
            && !w'.hw.ierTx && w'.out.sent == w.out.sent
  {
    OwnedIff(w.dma, w.port, o);
    Appended(w.out.sent, []);
  }

  lemma PioStarts(w: World, o: Choice)
    requires !Owned(Start(w.dma, w.port, o))
    ensures var w' := StartTxIn(w, o);
            && w'.dma.st.tx == w.dma.st.tx && w'.hw.ierTx == !SlotLeft(w.port, o.room)
            && IsPrefix(w.out.sent, w'.out.sent)
            && TakesHead(w.port, o.room, w'.port, w'.out.sent[|w.out.sent|..])
  {
    OwnedIff(w.dma, w.port, o);
    FillFills(w.port, o.room);
    Appended(w.out.sent, Fill(w.port, o.room).sent);
  }

  lemma StartLaw(w: World, p: Port, o: Choice)
    requires p.queue == w.port.queue && p.xchar == w.port.xchar && p.stopped == w.port.stopped
    ensures StartsAs(Start(w.dma, p, o), w.out, StartTxIn(w, o))
  {
    if Owned(Start(w.dma, w.port, o)) {
      DmaStarts(w, o);
      OwnedIff(w.dma, w.port, o);
    } else {
      PioStarts(w, o);
    }
  }

  lemma KickLaw(w: World, s: Step)
    requires Enabled(w, s) && (s.Kick? || s.SendX?)
    ensures TxLaw(w, s, Next(w, s))
  {
    match s
    case Kick(o) => if !w.port.stopped { StartLaw(w.(kicks := w.kicks - 1), w.port, o); }
    case SendX(b, o) => StartLaw(w.(port := w.port.(xchar := Some(b))), w.port.(xchar := Some(b)), o);
  }

  lemma ErrorLeaves(w: World, s: Step)
    requires Enabled(w, s) && s.Irq? && s.id == 6
    ensures LeavesOutput(w, s, Dispatch(w, 6, s.budget, s.o))
  {
    RxFlushFrame(w.dma.(st := w.dma.st.(rxFailed := true)), w.port, true, s.o.pause, s.o.keep);
  }

  lemma TimeoutLeaves(w: World, s: Step)
    requires Enabled(w, s) && s.Irq? && s.id == 12
    ensures LeavesOutput(w, s, Dispatch(w, 12, s.budget, s.o))
  {
    RxFlushFrame(w.dma, w.port, true, s.o.pause, s.o.keep);
    TimeoutPioFrame(Moved(w, RxFlush(w.dma, w.port, true, s.o.pause, s.o.keep)), s.budget, s.o.marker, s.o.late);
  }

  lemma IrqLeaves(w: World, s: Step)
    requires Enabled(w, s) && s.Irq? && s.id != 2
    ensures LeavesOutput(w, s, Dispatch(w, s.id, s.budget, s.o))
  {
    if s.id == 6 {
      ErrorLeaves(w, s);
    } else if s.id == 12 {
      TimeoutLeaves(w, s);
    }
  }

  lemma IrqLaw(w: World, s: Step)
    requires Enabled(w, s) && s.Irq?
    ensures TxLaw(w, s, Dispatch(w, s.id, s.budget, s.o))
  {
    if s.id == 2 {
      StartLaw(w, w.port, s.o);
    } else {
      IrqLeaves(w, s);
    }
  }

  lemma CallbackLaw(w: World, s: Step)
    requires Enabled(w, s) && s.TxCallback?
    ensures TxLaw(w, s, TxCalledBack(w, s.o))
  {
    var r := TxComplete(w.dma.(tx := w.dma.tx.(callback := false)), w.port);
    if r.2 {
      StartLaw(Moved(w, r), r.1, s.o);
    }
  }

  lemma FinishLaw(w: World, s: Step)
    requires Enabled(w, s) && s.WorkFinish?
    ensures TxLaw(w, s, FinishWork(w, s.o))
  {
    var w1 := w.(dma := DmaModel.WorkFinish(w.dma, w.worker.tx, w.worker.rx).0, worker := Parked);
    StartLaw(if w.worker.rx then PioIn(w1, IRQ_BUDGET) else w1, w.port, s.o);
  }

  lemma EndLaw(w: World, s: Step)
    requires Enabled(w, s) && (s.CfgEnd? || s.CfgGiveUp?)
    ensures TxLaw(w, s, Next(w, s))
  {
    var w1 := if s.CfgGiveUp? then w.(reported := Fallback(w.cfg.c)) else w;
    StartLaw(w1.(dma := ConfigureEnd(w.dma, s.CfgEnd?).0, cfg := NoChange), w.port, s.o);
  }

  lemma FlushingLaw(w: World, s: Step)
    requires Enabled(w, s) && (s.StopRx? || s.CfgBegin? || s.WorkPrepare?)
    ensures TxLaw(w, s, Next(w, s))
  {
    var d := if s.StopRx? then w.dma.(st := w.dma.st.(receive := false))
             else if s.CfgBegin? then w.dma.(st := w.dma.st.(configuring := true))
             else w.dma;
    RxFlushFrame(d, w.port, !s.WorkPrepare?, s.o.pause, s.o.keep);
  }

  lemma WireLaw(w: World, s: Step)
    requires Enabled(w, s)
    requires s.Arrive? || s.FifoReset? || s.RbrRead? || s.RxMove? || s.RxDone? || s.RxCallback?
          || s.TxMove? || s.TxDone?
    ensures TxLaw(w, s, Next(w, s))
  {
  }

  lemma SerialLaw(w: World, s: Step)
    requires Enabled(w, s)
    requires s.Write? || s.StopOutput? || s.ResumeOutput? || s.FlushBuffer? || s.Startup? || s.Deactivate?
    ensures TxLaw(w, s, Next(w, s))
  {
  }

  lemma WorkLaw(w: World, s: Step)
    requires Enabled(w, s) && (s.WorkStart? || s.WorkSyncTx? || s.WorkSyncRx? || s.CfgDrained? || s.CfgCancel?)
    ensures TxLaw(w, s, Next(w, s))
  {
  }

  lemma QuietLaw(w: World, s: Step)
    requires Enabled(w, s)
    requires s.CfgSyncTx? || s.CfgSyncRx? || s.CfgApply? || s.CloseWork? || s.CloseTx? || s.CloseRx?
    ensures TxLaw(w, s, Next(w, s))
  {
  }

  /** What any step does to the transmit side. */
  lemma TransmitLaw(w: World, s: Step)
    requires Enabled(w, s)
    ensures TxLaw(w, s, Next(w, s))
  {
    if s.Kick? || s.SendX? {
      KickLaw(w, s);
    } else if s.Irq? {
      IrqLaw(w, s);
    } else if s.TxCallback? {
      CallbackLaw(w, s);
    } else if s.WorkFinish? {
      FinishLaw(w, s);
    } else if s.CfgEnd? || s.CfgGiveUp? {
      EndLaw(w, s);
    } else if s.StopRx? || s.CfgBegin? || s.WorkPrepare? {
      FlushingLaw(w, s);
    } else if s.WorkStart? || s.WorkSyncTx? || s.WorkSyncRx? || s.CfgDrained? || s.CfgCancel? {
      WorkLaw(w, s);
    } else if s.CfgSyncTx? || s.CfgSyncRx? || s.CfgApply? || s.CloseWork? || s.CloseTx? || s.CloseRx? {
      QuietLaw(w, s);
    } else if s.Write? || s.StopOutput? || s.ResumeOutput? || s.FlushBuffer? || s.Startup? || s.Deactivate? {
      SerialLaw(w, s);
    } else {
      WireLaw(w, s);
    }
  }

  /**
   * Programmed transmit never overfills: what a step hands over itself, the XON/XOFF byte
   * included, fits the free slots.
   */
  lemma NeverOverfills(w: World, s: Step)
    requires Enabled(w, s) && !s.TxMove? && !s.FlushBuffer? && !s.Startup?
    ensures var w' := Next(w, s);
            match StartOf(w, s)
            case None => w'.out.sent == w.out.sent
            case Some(c) =>
              var urgent := if c.port.xchar.Some? && w'.port.xchar == None then 1 else 0;
              |w'.out.sent| + urgent <= |w.out.sent| + c.o.room || (Owned(c) && w'.out.sent == w.out.sent)
  {
    TransmitLaw(w, s);
  }

  // ----- receive -----

  /** What an ended DMA transfer hands over: its buffer, if the pause went well. */
  function HandedOver(w: World, pause: Pause): seq<Byte> {
    if w.dma.available && w.dma.st.rx == Running && pause.Stable? then w.dma.rx.mem else []
  }

  /** The CPU may read the FIFO after a flush. */
  predicate Safe(w: World, pause: Pause) {
    || !w.dma.available || w.dma.st.rx == Idle
    || w.dma.st.rxCpuSafe || (w.dma.st.rx == Running && pause.Stable?)
  }

  /** DMA owns the receive FIFO once it was offered it. */
  predicate OwnsFifo(w: World, cookie: Option<int>) {
    && w.dma.available && w.dma.st.active && w.dma.st.receive
    && match w.dma.st.rx
       case Running => true
       case Stopping => !w.dma.st.rxCpuSafe
       case Idle => !w.dma.st.configuring && !w.dma.st.rxFailed && cookie.Some?
  }

  function UpTo(fifo: seq<Byte>, n: nat): seq<Byte> {
    if n <= |fifo| then fifo[..n] else fifo
  }

  /** The bytes that a step gives to the TTY. */
  function Delivered(w: World, s: Step): seq<Byte>
    requires Enabled(w, s)
  {
    match s
    case Irq(id, budget, o) =>
      if id == 4 then (if OwnsFifo(w, o.cookie) then [] else UpTo(w.hw.fifo, budget))
      else if id == 6 || id == 12 then
        HandedOver(w, o.pause) + (if Safe(w, o.pause) then UpTo(w.hw.fifo, budget) else [])
      else []
    case StopRx(o) => HandedOver(w, o.pause)
    case CfgBegin(_, o) => HandedOver(w, o.pause)
    case WorkPrepare(o) => if w.dma.st.active then HandedOver(w, o.pause) else []
    case RxCallback => if w.dma.available && w.dma.st.active && w.dma.st.rx == Running then w.dma.rx.mem else []
    case WorkFinish(_) =>
      if w.dma.st.active && !w.dma.st.configuring && w.worker.rx then UpTo(w.hw.fifo, 256) else []
    case _ => []
  }

  /** What a dummy read leaves, before which another byte may have arrived. */
  function AllButFirst(fifo: seq<Byte>, late: Option<Byte>): seq<Byte> {
    var all := if late.Some? then fifo + [late.value] else fifo;
    if all == [] then [] else all[1..]
  }

  /** What a step leaves in the FIFO. */
  function LeftInFifo(w: World, s: Step): seq<Byte>
    requires Enabled(w, s)
  {
    match s
    case Arrive(b) => w.hw.fifo + [b]
    case FifoReset => []
    case Startup => []
    case RbrRead => if w.hw.fifo == [] then [] else w.hw.fifo[1..]
    case RxMove => w.hw.fifo[1..]
    case Irq(id, budget, o) =>
      if id == 12 && Safe(w, o.pause) && !(budget > 0 && (w.hw.fifo != [] || o.marker)) then
        AllButFirst(w.hw.fifo, o.late)
      else if (id == 4 && !OwnsFifo(w, o.cookie)) || ((id == 6 || id == 12) && Safe(w, o.pause)) then
        w.hw.fifo[|UpTo(w.hw.fifo, budget)|..]
      else w.hw.fifo
    case WorkFinish(_) =>
      if w.dma.st.active && !w.dma.st.configuring && w.worker.rx then w.hw.fifo[|UpTo(w.hw.fifo, 256)|..]
      else w.hw.fifo
    case _ => w.hw.fifo
  }

  /** How a step treats the receive side. */
  ghost predicate RxLaw(w: World, s: Step, w': World)
    requires Enabled(w, s)
  {
    && w'.port.tty == (if s.Startup? then [] else w.port.tty + Delivered(w, s))
    && w'.hw.fifo == LeftInFifo(w, s)
  }

  lemma PioGives(p: Port, h: Hw, budget: nat)
    ensures var (p', h') := Pio(p, h, budget);
            p'.tty == p.tty + UpTo(h.fifo, budget) && h'.fifo == h.fifo[|UpTo(h.fifo, budget)|..]
  {
  }

  lemma FlushGives(d: Dma, p: Port, schedule: bool, pause: Pause, keep: bool)
    ensures var (d', p', safe) := RxFlush(d, p, schedule, pause, keep);
            && p'.tty == p.tty + (if d.available && d.st.rx == Running && pause.Stable? then d.rx.mem else [])
            && (safe <==> || !d.available || d.st.rx == Idle || d.st.rxCpuSafe
                          || (d.st.rx == Running && pause.Stable?))
  {
    assert p.tty + [] == p.tty;
  }

  lemma NothingMore(tty: seq<Byte>)
    ensures tty + [] == tty
  {
  }

  lemma DummyGives(w: World, late: Option<Byte>)
    ensures var w' := DummyIn(w, late); w'.port.tty == w.port.tty && w'.hw.fifo == AllButFirst(w.hw.fifo, late)
  {
  }

  lemma TimeoutGives(w: World, budget: nat, marker: bool, late: Option<Byte>)
    ensures var w' := TimeoutPio(w, budget, marker, late);
            && w'.port.tty == w.port.tty + UpTo(w.hw.fifo, budget)
            && w'.hw.fifo == if budget > 0 && (w.hw.fifo != [] || marker)
                             then w.hw.fifo[|UpTo(w.hw.fifo, budget)|..] else AllButFirst(w.hw.fifo, late)
  {
    if PioRead(w.hw, budget, marker) {
      PioGives(w.port, w.hw, budget);
    } else {
      DummyGives(w, late);
      assert UpTo(w.hw.fifo, budget) == [];
      NothingMore(w.port.tty);
    }
  }

  lemma DataReceives(w: World, s: Step)
    requires Enabled(w, s) && s.Irq? && s.id == 4
    ensures RxLaw(w, s, Dispatch(w, 4, s.budget, s.o))
  {
    PioGives(w.port, w.hw, s.budget);
    NothingMore(w.port.tty);
    var (d, owned) := RxStart(w.dma, s.o.cookie);
    assert owned == OwnsFifo(w, s.o.cookie);
  }

  lemma ErrorReceives(w: World, s: Step)
    requires Enabled(w, s) && s.Irq? && s.id == 6
    ensures RxLaw(w, s, Dispatch(w, 6, s.budget, s.o))
  {
    var d := w.dma.(st := w.dma.st.(rxFailed := true));
    FlushGives(d, w.port, true, s.o.pause, s.o.keep);
    PioGives(RxFlush(d, w.port, true, s.o.pause, s.o.keep).1, w.hw, s.budget);
    TwoParts(w.port.tty, HandedOver(w, s.o.pause), UpTo(w.hw.fifo, s.budget));
  }

  lemma TimeoutReceives(w: World, s: Step)
    requires Enabled(w, s) && s.Irq? && s.id == 12
    ensures RxLaw(w, s, Dispatch(w, 12, s.budget, s.o))
  {
    FlushGives(w.dma, w.port, true, s.o.pause, s.o.keep);
    var r := RxFlush(w.dma, w.port, true, s.o.pause, s.o.keep);
    TimeoutGives(Moved(w, r), s.budget, s.o.marker, s.o.late);
    TwoParts(w.port.tty, HandedOver(w, s.o.pause), UpTo(w.hw.fifo, s.budget));
    NothingMore(w.port.tty + HandedOver(w, s.o.pause));
  }

  lemma TwoParts(a: seq<Byte>, b: seq<Byte>, c: seq<Byte>)
    ensures a + b + c == a + (b + c) && a + (b + []) == a + b
  {
  }

  lemma OtherIrqReceives(w: World, s: Step)
    requires Enabled(w, s) && s.Irq? && s.id != 4 && s.id != 6 && s.id != 12
    ensures RxLaw(w, s, Dispatch(w, s.id, s.budget, s.o))
  {
    if s.id == 2 {
      StartTxFrame(w, s.o);
    }
  }

  lemma IrqReceives(w: World, s: Step)
    requires Enabled(w, s) && s.Irq?
    ensures RxLaw(w, s, Dispatch(w, s.id, s.budget, s.o))
  {
    if s.id == 4 {
      DataReceives(w, s);
    } else if s.id == 6 {
      ErrorReceives(w, s);
    } else if s.id == 12 {
      TimeoutReceives(w, s);
    } else {
      OtherIrqReceives(w, s);
    }
  }

  lemma FlushReceives(w: World, s: Step)
    requires Enabled(w, s) && (s.StopRx? || s.CfgBegin? || s.WorkPrepare?)
    ensures RxLaw(w, s, Next(w, s))
  {
    var d := if s.StopRx? then w.dma.(st := w.dma.st.(receive := false))
             else if s.CfgBegin? then w.dma.(st := w.dma.st.(configuring := true))
             else w.dma;
    FlushGives(d, w.port, !s.WorkPrepare?, s.o.pause, s.o.keep);
    NothingMore(w.port.tty);
  }

  lemma CallbackReceives(w: World, s: Step)
    requires Enabled(w, s) && (s.RxCallback? || s.Kick? || s.SendX?)
    ensures RxLaw(w, s, Next(w, s))
  {
    NothingMore(w.port.tty);
  }

  lemma FinishReceives(w: World, s: Step)
    requires Enabled(w, s) && s.WorkFinish?
    ensures RxLaw(w, s, FinishWork(w, s.o))
  {
    NothingMore(w.port.tty);
    PioGives(w.port, w.hw, IRQ_BUDGET);
    var w1 := w.(dma := DmaModel.WorkFinish(w.dma, w.worker.tx, w.worker.rx).0, worker := Parked);
    StartTxFrame(if w.worker.rx then PioIn(w1, IRQ_BUDGET) else w1, s.o);
  }

  lemma StartReceives(w: World, s: Step)
    requires Enabled(w, s) && (s.TxCallback? || s.CfgEnd? || s.CfgGiveUp?)
    ensures RxLaw(w, s, Next(w, s))
  {
    NothingMore(w.port.tty);
  }

  lemma WireReceives(w: World, s: Step)
    requires Enabled(w, s)
    requires s.Arrive? || s.FifoReset? || s.RbrRead? || s.RxMove? || s.RxDone? || s.TxMove? || s.TxDone?
          || s.Write? || s.StopOutput? || s.ResumeOutput? || s.FlushBuffer?
    ensures RxLaw(w, s, Next(w, s))
  {
    NothingMore(w.port.tty);
  }

  lemma WorkReceives(w: World, s: Step)
    requires Enabled(w, s) && (s.WorkStart? || s.WorkSyncTx? || s.WorkSyncRx? || s.CfgDrained? || s.CfgCancel?)
    ensures RxLaw(w, s, Next(w, s))
  {
    NothingMore(w.port.tty);
  }

  lemma TermiosReceives(w: World, s: Step)
    requires Enabled(w, s) && (s.CfgSyncTx? || s.CfgSyncRx? || s.CfgApply?)
    ensures RxLaw(w, s, Next(w, s))
  {
    NothingMore(w.port.tty);
  }

  lemma LifeReceives(w: World, s: Step)
    requires Enabled(w, s) && Administrative(s)
    ensures RxLaw(w, s, Next(w, s))
  {
    NothingMore(w.port.tty);
  }

  /**
   * Which bytes any step gives to the TTY and which it leaves in the FIFO: a receive turn
   * gives what DMA hands over and then up to its budget of the FIFO, the worker's drain up
   * to 256, a completion the whole buffer, and nothing else gives anything.
   */
  lemma ReceiveLaw(w: World, s: Step)
    requires Enabled(w, s)
    ensures RxLaw(w, s, Next(w, s))
  {
    if s.Irq? {
      IrqReceives(w, s);
    } else if s.StopRx? || s.CfgBegin? || s.WorkPrepare? {
      FlushReceives(w, s);
    } else if s.RxCallback? || s.Kick? || s.SendX? {
      CallbackReceives(w, s);
    } else if s.WorkFinish? {
      FinishReceives(w, s);
    } else if s.TxCallback? || s.CfgEnd? || s.CfgGiveUp? {
      StartReceives(w, s);
    } else if s.WorkStart? || s.WorkSyncTx? || s.WorkSyncRx? || s.CfgDrained? || s.CfgCancel? {
      WorkReceives(w, s);
    } else if s.CfgSyncTx? || s.CfgSyncRx? || s.CfgApply? {
      TermiosReceives(w, s);
    } else if Administrative(s) {
      LifeReceives(w, s);
    } else {
      WireReceives(w, s);
    }
  }

  // ----- modes, phases and the worker -----

  /** A receive block is submitted. */
  predicate SubmitsRx(w: World, s: Step) {
    s.Irq? && s.id == 4 && OwnsFifo(w, s.o.cookie) && w.dma.st.rx == Idle
  }

  /** An output flush finds something to cancel. */
  predicate Cancels(w: World, s: Step) {
    s.FlushBuffer? && w.dma.available && w.dma.st.active && w.dma.st.tx != Idle
  }

  /** The transmit phase but for a block that start_tx submits. */
  function TxBase(w: World, s: Step): Phase
    requires Enabled(w, s)
  {
    if s.Startup? || s.CfgEnd? || (s.WorkFinish? && w.worker.tx)
       || (s.TxCallback? && w.dma.st.active && w.dma.st.tx == Running) then Idle
    else if Cancels(w, s) then Stopping
    else w.dma.st.tx
  }

  /** Whether the step's call of start_tx, if it makes one, submits a block. */
  predicate SubmitsTx(w: World, s: Step)
    requires Enabled(w, s)
  {
    var c := StartOf(w, s);
    c.Some? && Submitted(c.value)
  }

  function RxPhase(w: World, s: Step): Phase
    requires Enabled(w, s)
  {
    if s.Startup? || s.CfgEnd? || (s.WorkFinish? && w.worker.rx)
       || (s.RxCallback? && w.dma.available && w.dma.st.active && w.dma.st.rx == Running) then Idle
    else if Flushes(w, s) then Stopping
    else if SubmitsRx(w, s) then Running
    else w.dma.st.rx
  }

  datatype Modes = Modes(active: bool, receive: bool, configuring: bool, tx: Phase, rx: Phase,
                         ierRx: bool, ierLsr: bool, armed: bool)

  function ModesOf(w: World): Modes {
    Modes(w.dma.st.active, w.dma.st.receive, w.dma.st.configuring, w.dma.st.tx, w.dma.st.rx,
          w.hw.ierRx, w.hw.ierLsr, w.dma.armed)
  }

  /** Which steps change the modes of the driver, its phases, its enables and the worker's arming, and how. */
  function ModesAfter(w: World, s: Step): Modes
    requires Enabled(w, s)
  {
    Modes(
      if s.Startup? then true else if s.Deactivate? then false else w.dma.st.active,
      if s.Startup? then true else if s.Deactivate? || s.StopRx? then false else w.dma.st.receive,
      if s.CfgBegin? then true else if s.CfgEnd? || s.CfgGiveUp? || s.Startup? then false else w.dma.st.configuring,
      if SubmitsTx(w, s) then Running else TxBase(w, s),
      RxPhase(w, s),
      if s.Startup? then true else if s.StopRx? || s.Deactivate? then false else w.hw.ierRx,
      if s.Startup? then true else if s.StopRx? || s.Deactivate? then false else w.hw.ierLsr,
      if s.WorkStart? || s.CfgCancel? || s.CloseWork? then false
      else w.dma.armed || Cancels(w, s) || SubmitsRx(w, s)
           || (Flushes(w, s) && !s.WorkPrepare? && w.dma.st.active))
  }

  ghost predicate ModeLaw(w: World, s: Step, w': World)
    requires Enabled(w, s)
  {
    ModesOf(w') == ModesAfter(w, s)
  }

  /** A submitted receive block offers the whole buffer, and a cancelled transfer stands still. */
  ghost predicate ChannelLaw(w: World, s: Step, w': World)
    requires Enabled(w, s)
  {
    && (SubmitsRx(w, s) ==>
          w'.dma.rx == Channel(true, false, false, [], 512, 0, s.o.cookie.value) && !w'.dma.st.rxCpuSafe)
    && (Flushes(w, s) ==> !w'.dma.rx.live)
    && (Cancels(w, s) ==> !w'.dma.tx.live && w'.dma.st.txLen == 0)
  }

  lemma FlushModes(d: Dma, p: Port, schedule: bool, pause: Pause, keep: bool)
    ensures var d' := RxFlush(d, p, schedule, pause, keep).0;
            && d'.tx == d.tx && d'.available == d.available
            && d'.st == d.st.(rx := d'.st.rx, rxCpuSafe := d'.st.rxCpuSafe, rxFailed := d'.st.rxFailed)
            && d'.st.rx == (if d.available && d.st.rx == Running then Stopping else d.st.rx)
            && d'.armed == (d.armed || (schedule && d.available && d.st.rx == Running && d.st.active))
            && (d.available && d.st.rx == Running ==> !d'.rx.live)
  {
  }

  lemma OfferModes(d: Dma, cookie: Option<int>)
    ensures var (d', owned) := RxStart(d, cookie);
            var submits := d.available && d.st.active && d.st.receive && d.st.rx == Idle
                           && !d.st.configuring && !d.st.rxFailed && cookie.Some?;
            && d'.tx == d.tx && d'.st == d.st.(rx := d'.st.rx, rxCookie := d'.st.rxCookie,
                                               rxCpuSafe := d'.st.rxCpuSafe, rxFailed := d'.st.rxFailed)
            && d'.st.rx == (if submits then Running else d.st.rx)
            && d'.armed == (d.armed || submits)
            && (submits ==> d'.rx == Channel(true, false, false, [], 512, 0, cookie.value) && !d'.st.rxCpuSafe)
  {
  }

  /** A call of start_tx changes the transmit phase at most, to Running, when it submits. */
  lemma StartModes(w: World, p: Port, o: Choice)
    requires p.queue == w.port.queue && p.xchar == w.port.xchar && p.stopped == w.port.stopped
    ensures var w' := StartTxIn(w, o);
            && SameRx(w, w')
            && w'.dma.st.tx == (if Submitted(Start(w.dma, p, o)) then Running else w.dma.st.tx)
  {
    StartTxFrame(w, o);
    OwnedIff(w.dma, w.port, o);
  }

  /** The modes after a receive flush; `keep` tells whether the receive enables stay. */
  function AfterFlush(w: World, receive: bool, configuring: bool, keep: bool, schedule: bool): Modes {
    var ends := w.dma.available && w.dma.st.rx == Running;
    Modes(w.dma.st.active, receive, configuring, w.dma.st.tx, if ends then Stopping else w.dma.st.rx,
          w.hw.ierRx && keep, w.hw.ierLsr && keep, w.dma.armed || (schedule && ends && w.dma.st.active))
  }

  lemma FlushExpected(w: World, s: Step)
    requires Enabled(w, s)
    ensures s.Irq? && (s.id == 6 || s.id == 12) ==>
              ModesAfter(w, s) == AfterFlush(w, w.dma.st.receive, w.dma.st.configuring, true, true)
    ensures s.StopRx? ==> ModesAfter(w, s) == AfterFlush(w, false, w.dma.st.configuring, false, true)
    ensures s.CfgBegin? ==> ModesAfter(w, s) == AfterFlush(w, w.dma.st.receive, true, true, true)
    ensures s.WorkPrepare? && w.dma.st.active ==>
              ModesAfter(w, s) == AfterFlush(w, w.dma.st.receive, w.dma.st.configuring, true, false)
    ensures s.WorkPrepare? && !w.dma.st.active ==> ModesAfter(w, s) == ModesOf(w)
  {
  }

  /** Reading the FIFO changes no mode. */
  lemma TailModes(w: World, id: nat, budget: nat, o: Choice)
    ensures ModesOf(Tail(w, id, budget, o)) == ModesOf(w)
  {
    TimeoutPioFrame(w, budget, o.marker, o.late);
  }

  lemma ClaimModes(w: World, id: nat, o: Choice)
    requires id == 6 || id == 12
    ensures ModesOf(Claimed(w, id, o)) == AfterFlush(w, w.dma.st.receive, w.dma.st.configuring, true, true)
  {
    var d := if id == 6 then w.dma.(st := w.dma.st.(rxFailed := true)) else w.dma;
    FlushModes(d, w.port, true, o.pause, o.keep);
  }

  lemma FlushIrqModes(w: World, id: nat, budget: nat, o: Choice)
    requires id == 6 || id == 12
    ensures ModesOf(Dispatch(w, id, budget, o))
         == AfterFlush(w, w.dma.st.receive, w.dma.st.configuring, true, true)
  {
    ServedIs(w, id, budget, o);
    ClaimModes(w, id, o);
    TailModes(Claimed(w, id, o), id, budget, o);
  }

  lemma StopRxModes(w: World, o: Choice)
    ensures ModesOf(RxStopped(w, o)) == AfterFlush(w, false, w.dma.st.configuring, false, true)
  {
    FlushModes(w.dma.(st := w.dma.st.(receive := false)), w.port, true, o.pause, o.keep);
  }

  lemma CfgBeginModes(w: World, c: Change, o: Choice)
    ensures ModesOf(ConfigureBegun(w, c, o)) == AfterFlush(w, w.dma.st.receive, true, true, true)
  {
    FlushModes(w.dma.(st := w.dma.st.(configuring := true)), w.port, true, o.pause, o.keep);
  }

  lemma PrepareModes(w: World, o: Choice)
    ensures ModesOf(WorkPrepared(w, o))
         == if w.dma.st.active then AfterFlush(w, w.dma.st.receive, w.dma.st.configuring, true, false) else ModesOf(w)
  {
    FlushModes(w.dma, w.port, false, o.pause, o.keep);
  }

  lemma FlushingModes(w: World, s: Step)
    requires Enabled(w, s) && (s.StopRx? || s.CfgBegin? || s.WorkPrepare? || (s.Irq? && (s.id == 6 || s.id == 12)))
    ensures ModeLaw(w, s, Next(w, s))
  {
    FlushExpected(w, s);
    match s
    case StopRx(o) => StopRxModes(w, o);
    case CfgBegin(c, o) => CfgBeginModes(w, c, o);
    case WorkPrepare(o) => PrepareModes(w, o);
    case Irq(id, budget, o) => FlushIrqModes(w, id, budget, o);
  }

  /** The modes after a call of start_tx on a port with the given ones. */
  function AfterStart(m: Modes, submits: bool): Modes {
    m.(tx := if submits then Running else m.tx)
  }

  lemma StartedModes(w: World, p: Port, o: Choice)
    requires p.queue == w.port.queue && p.xchar == w.port.xchar && p.stopped == w.port.stopped
    ensures ModesOf(StartTxIn(w, o)) == AfterStart(ModesOf(w), Submitted(Start(w.dma, p, o)))
  {
    StartModes(w, p, o);
  }

  lemma KickModes(w: World, s: Step)
    requires Enabled(w, s) && s.Kick?
    ensures ModeLaw(w, s, Kicked(w, s.o))
  {
    if !w.port.stopped {
      StartedModes(w.(kicks := w.kicks - 1), w.port, s.o);
    }
  }

  lemma SendXModes(w: World, s: Step)
    requires Enabled(w, s) && s.SendX?
    ensures ModeLaw(w, s, Next(w, s))
  {
    StartedModes(w.(port := w.port.(xchar := Some(s.byte))), w.port.(xchar := Some(s.byte)), s.o);
  }

  lemma DataModes(w: World, s: Step)
    requires Enabled(w, s) && s.Irq? && s.id == 4
    ensures ModeLaw(w, s, Dispatch(w, 4, s.budget, s.o))
  {
    OfferModes(w.dma, s.o.cookie);
  }

  lemma PlainIrqModes(w: World, s: Step)
    requires Enabled(w, s) && s.Irq? && s.id != 4 && s.id != 6 && s.id != 12
    ensures ModeLaw(w, s, Dispatch(w, s.id, s.budget, s.o))
  {
    if s.id == 2 {
      StartedModes(w, w.port, s.o);
    }
  }

  lemma CallbackModes(w: World, s: Step)
    requires Enabled(w, s) && s.TxCallback?
    ensures ModeLaw(w, s, TxCalledBack(w, s.o))
  {
    var r := TxComplete(w.dma.(tx := w.dma.tx.(callback := false)), w.port);
    if r.2 {
      StartedModes(Moved(w, r), r.1, s.o);
    }
  }

  /** The modes once the worker's directions are reset, before its call of start_tx. */
  function AfterReset(w: World, tx: bool, rx: bool): Modes {
    ModesOf(w).(tx := if tx then Idle else w.dma.st.tx, rx := if rx then Idle else w.dma.st.rx)
  }

  lemma FinishExpected(w: World, s: Step)
    requires Enabled(w, s) && s.WorkFinish?
    ensures ModesAfter(w, s) == AfterStart(AfterReset(w, w.worker.tx, w.worker.rx), SubmitsTx(w, s))
  {
  }

  lemma FinishResult(w: World, o: Choice)
    requires w.worker.Synced?
    ensures ModesOf(FinishWork(w, o))
         == AfterStart(AfterReset(w, w.worker.tx, w.worker.rx), SubmitsTx(w, WorkFinish(o)))
  {
    var w1 := w.(dma := DmaModel.WorkFinish(w.dma, w.worker.tx, w.worker.rx).0, worker := Parked);
    var w2 := if w.worker.rx then PioIn(w1, IRQ_BUDGET) else w1;
    assert ModesOf(w2) == ModesOf(w1) == AfterReset(w, w.worker.tx, w.worker.rx) && w2.dma == w1.dma;
    StartedModes(w2, w.port, o);
  }

  lemma FinishModes(w: World, s: Step)
    requires Enabled(w, s) && s.WorkFinish?
    ensures ModeLaw(w, s, FinishWork(w, s.o))
  {
    FinishExpected(w, s);
    FinishResult(w, s.o);
  }

  lemma CfgEndModes(w: World, s: Step)
    requires Enabled(w, s) && s.CfgEnd?
    ensures ModeLaw(w, s, EndConfigure(w, true, s.o))
  {
    StartedModes(w.(dma := ConfigureEnd(w.dma, true).0, cfg := NoChange), w.port, s.o);
  }

  lemma GiveUpModes(w: World, s: Step)
    requires Enabled(w, s) && s.CfgGiveUp?
    ensures ModeLaw(w, s, EndConfigure(w.(reported := Fallback(w.cfg.c)), false, s.o))
  {
    var w1 := w.(reported := Fallback(w.cfg.c));
    StartedModes(w1.(dma := ConfigureEnd(w.dma, false).0, cfg := NoChange), w.port, s.o);
  }

  lemma WireModes(w: World, s: Step)
    requires Enabled(w, s) && (s.Arrive? || s.FifoReset? || s.RbrRead? || s.RxMove? || s.RxDone?)
    ensures ModeLaw(w, s, Next(w, s))
  {
  }

  lemma OutputModes(w: World, s: Step)
    requires Enabled(w, s) && (s.TxMove? || s.TxDone? || s.Write? || s.StopOutput? || s.ResumeOutput?)
    ensures ModeLaw(w, s, Next(w, s))
  {
  }

  lemma CancelModes(w: World, s: Step)
    requires Enabled(w, s) && (s.FlushBuffer? || s.RxCallback?)
    ensures ModeLaw(w, s, Next(w, s))
  {
  }

  lemma WorkModes(w: World, s: Step)
    requires Enabled(w, s) && (s.WorkStart? || s.WorkSyncTx? || s.WorkSyncRx? || s.CfgDrained? || s.CfgCancel?)
    ensures ModeLaw(w, s, Next(w, s))
  {
  }

  lemma TermiosModes(w: World, s: Step)
    requires Enabled(w, s) && (s.CfgSyncTx? || s.CfgSyncRx? || s.CfgApply?)
    ensures ModeLaw(w, s, Next(w, s))
  {
  }

  lemma LifeModes(w: World, s: Step)
    requires Enabled(w, s) && Administrative(s)
    ensures ModeLaw(w, s, Next(w, s))
  {
  }

  lemma IrqModes(w: World, s: Step)
    requires Enabled(w, s) && s.Irq?
    ensures ModeLaw(w, s, Next(w, s))
  {
    if s.id == 4 {
      DataModes(w, s);
    } else if s.id == 6 || s.id == 12 {
      FlushingModes(w, s);
    } else {
      PlainIrqModes(w, s);
    }
  }

  lemma RestartModes(w: World, s: Step)
    requires Enabled(w, s) && (s.Kick? || s.SendX? || s.TxCallback? || s.WorkFinish? || s.CfgEnd? || s.CfgGiveUp?)
    ensures ModeLaw(w, s, Next(w, s))
  {
    if s.Kick? {
      KickModes(w, s);
    } else if s.SendX? {
      SendXModes(w, s);
    } else if s.TxCallback? {
      CallbackModes(w, s);
    } else if s.WorkFinish? {
      FinishModes(w, s);
    } else if s.CfgEnd? {
      CfgEndModes(w, s);
    } else {
      GiveUpModes(w, s);
    }
  }

  /** Exactly which steps change modes, phases, enables and the worker's arming. */
  lemma ControlLaw(w: World, s: Step)
    requires Enabled(w, s)
    ensures ModeLaw(w, s, Next(w, s))
  {
    if s.Irq? {
      IrqModes(w, s);
    } else if s.Kick? || s.SendX? || s.TxCallback? || s.WorkFinish? || s.CfgEnd? || s.CfgGiveUp? {
      RestartModes(w, s);
    } else if s.StopRx? || s.CfgBegin? || s.WorkPrepare? {
      FlushingModes(w, s);
    } else if s.WorkStart? || s.WorkSyncTx? || s.WorkSyncRx? || s.CfgDrained? || s.CfgCancel? {
      WorkModes(w, s);
    } else if s.CfgSyncTx? || s.CfgSyncRx? || s.CfgApply? {
      TermiosModes(w, s);
    } else if Administrative(s) {
      LifeModes(w, s);
    } else if s.FlushBuffer? || s.RxCallback? {
      CancelModes(w, s);
    } else if s.TxMove? || s.TxDone? || s.Write? || s.StopOutput? || s.ResumeOutput? {
      OutputModes(w, s);
    } else {
      WireModes(w, s);
    }
  }

  // ----- the channels -----

  lemma FlushStops(w: World, s: Step)
    requires Enabled(w, s) && Flushes(w, s) && !s.Irq?
    ensures !Next(w, s).dma.rx.live
  {
    match s
    case StopRx(o) =>
      FlushModes(w.dma.(st := w.dma.st.(receive := false)), w.port, true, o.pause, o.keep);
    case CfgBegin(_, o) =>
      FlushModes(w.dma.(st := w.dma.st.(configuring := true)), w.port, true, o.pause, o.keep);
    case WorkPrepare(o) => FlushModes(w.dma, w.port, false, o.pause, o.keep);
  }

  lemma FlushIrqStops(w: World, id: nat, budget: nat, o: Choice)
    requires w.dma.available && w.dma.st.rx == Running && (id == 6 || id == 12)
    ensures !Dispatch(w, id, budget, o).dma.rx.live
  {
    ServedIs(w, id, budget, o);
    var d := if id == 6 then w.dma.(st := w.dma.st.(rxFailed := true)) else w.dma;
    FlushModes(d, w.port, true, o.pause, o.keep);
    TimeoutPioFrame(Claimed(w, id, o), budget, o.marker, o.late);
  }

  /** A submitted receive block offers the whole buffer, and a transfer that is cancelled or flushed stands still. */
  lemma ChannelsLaw(w: World, s: Step)
    requires Enabled(w, s)
    ensures ChannelLaw(w, s, Next(w, s))
  {
    if SubmitsRx(w, s) {
      OfferModes(w.dma, s.o.cookie);
    } else if Flushes(w, s) && s.Irq? {
      FlushIrqStops(w, s.id, s.budget, s.o);
    } else if Flushes(w, s) {
      FlushStops(w, s);
    }
  }

  // ----- the interrupt handler's turns -----

  /** The identification register shows a source exactly when it is enabled and DLAB is clear. */
  lemma IdentifiedIff(h: Hw, pending: nat)
    ensures Identified(h, pending) == pending || Identified(h, pending) == 1
    ensures pending == 2 ==> (Identified(h, pending) == 2 <==> h.ierTx && !h.dlab)
    ensures pending == 4 || pending == 12 ==> (Identified(h, pending) == pending <==> h.ierRx && !h.dlab)
    ensures pending == 6 ==> (Identified(h, pending) == 6 <==> h.ierLsr && !h.dlab)
    ensures pending !in {2, 4, 6, 12} ==> Identified(h, pending) == pending
  {
  }

  /** A turn costs, beyond itself, one for each byte it reads from the FIFO and one for a break without data. */
  lemma TurnCosts(w: World, id: nat, budget: nat, o: Choice)
    ensures var read := if (id == 4 && !OwnsFifo(w, o.cookie)) || ((id == 6 || id == 12) && Safe(w, o.pause))
                        then |UpTo(w.hw.fifo, budget)| + (if o.marker && w.hw.fifo == [] && budget > 0 then 1 else 0)
                        else 0;
            Left(w, id, budget, o) + read == budget
    ensures Stops(w, id, o) <==>
              match id
              case 2 => false
              case 7 => false
              case 0 => false
              case 4 => OwnsFifo(w, o.cookie)
              case 6 => !Safe(w, o.pause)
              case 12 => !Safe(w, o.pause)
              case _ => true
  {
    FlushGives(w.dma.(st := w.dma.st.(rxFailed := true)), w.port, true, o.pause, o.keep);
    FlushGives(w.dma, w.port, true, o.pause, o.keep);
  }
}
