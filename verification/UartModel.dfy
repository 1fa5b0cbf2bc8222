// The whole port as a state machine: every actor that takes the UART lock, the
// DMA engines, the delayed worker with its unlocked window, a termios change
// with its unlocked window, and the open/close life cycle.

module UartModel {
  import opened Common
  import opened DmaModel

  /** One piece of output between two flushes. */
  datatype Epoch = Epoch(written: seq<Byte>, sent: seq<Byte>, thr: seq<Byte>)

  /**
   * Output history: the current epoch and the finished ones. `sent` was handed to the
   * controller; of that, `thr` reached the transmit register and not the divisor latch.
   */
  datatype TxLog = TxLog(written: seq<Byte>, sent: seq<Byte>, thr: seq<Byte>, past: seq<Epoch>)

  /** More bytes are handed over; they miss the transmit register while DLAB is set. */
  function Handed(log: TxLog, bytes: seq<Byte>, dlab: bool): TxLog {
    log.(sent := log.sent + bytes, thr := if dlab then log.thr else log.thr + bytes)
  }

  /** The next epoch begins. */
  function NextEpoch(log: TxLog): TxLog {
    TxLog([], [], [], log.past + [Epoch(log.written, log.sent, log.thr)])
  }

  /** The delayed work: `tx`/`rx` are the snapshot taken by work_prepare. */
  datatype Worker =
    | Parked
    | Started
    | Prepared(tx: bool, rx: bool)
    | TxStopped(tx: bool, rx: bool)
    | Synced(tx: bool, rx: bool)

  datatype Life = Closed | Open | Deactivated | WorkGone | TxGone

  /** Where a set_termios call is: `next` is requested, `old` the settings it replaces. */
  datatype Change = Change(next: int, previous: Option<int>)
  datatype Termios =
    | NoChange
    | Begun(c: Change)
    | Drained(c: Change)
    | Cancelled(c: Change)
    | HalfSynced(c: Change)
    | Quiesced(c: Change)
    | Applied(c: Change)

  /**
   * What a termios change left in the controller: the requested settings, or, when it
   * was rejected, whether divisor and framing and the input clock are as they were,
   * and whether DLAB is set.
   */
  datatype Verdict = Accepted | Rejected(registers: bool, clock: bool, dlab: bool)

  /** What the controller is programmed to: settings somebody asked for, or a mixture. */
  datatype Line = Settings(id: int) | Garbled

  datatype World = World(
    dma: Dma,
    port: Port,
    hw: Hw,
    worker: Worker,
    life: Life,
    cfg: Termios,
    kicks: nat,       // uart_start calls serial core still owes
    line: Line,       // settings programmed into the controller
    reported: int,    // settings serial core was told are in force
    out: TxLog)

  /** The choices the environment makes during one step. */
  datatype Choice = Choice(
    cookie: Option<int>,    // provider's answer to a submit
    room: nat,              // free transmit FIFO slots seen by a fill
    pause: Pause,           // provider's answer to a pause
    keep: bool,             // a dispatched callback survives terminate_async
    marker: bool,           // LSR shows a break without data
    late: Option<Byte>)     // arrives after the last LSR read of a receive timeout

  datatype Step =
    // the wire and the DMA engines
    | Arrive(byte: Byte)
    | FifoReset
    | RbrRead
    | TxMove
    | TxDone
    | RxMove
    | RxDone
    // serial core
    | Write(bytes: seq<Byte>)
    | Kick(o: Choice)
    | StopOutput
    | ResumeOutput
    | SendX(byte: Byte, o: Choice)
    | FlushBuffer(o: Choice)
    | StopRx(o: Choice)
    // interrupt handler: one identification register value
    | Irq(id: nat, budget: nat, o: Choice)
    // completion callbacks
    | TxCallback(o: Choice)
    | RxCallback
    // delayed worker
    | WorkStart
    | WorkPrepare(o: Choice)
    | WorkSyncTx
    | WorkSyncRx
    | WorkFinish(o: Choice)
    // termios
    | CfgBegin(c: Change, o: Choice)
    | CfgDrained
    | CfgCancel
    | CfgSyncTx
    | CfgSyncRx
    | CfgApply(v: Verdict)
    | CfgEnd(o: Choice)
    | CfgGiveUp(o: Choice)
    // life cycle
    | Startup
    | Deactivate
    | CloseWork
    | CloseTx
    | CloseRx

  const NO_OUT: TxLog := TxLog([], [], [], [])

  /** A port that was never opened; `channels` says whether DMA was acquired. */
  function Init(channels: bool, line: int): World {
    World(Dma(channels, FRESH, IDLE_CHANNEL, IDLE_CHANNEL, false),
          Port([], false, None, [], NO_RX),
          Hw(false, false, false, [], false),
          Parked, Closed, NoChange, 0, Settings(line), line, NO_OUT)
  }

  /** The settings a failed or abandoned change leaves serial core with. */
  function Fallback(c: Change): int {
    match c.previous
    case Some(o) => o
    case None => c.next
  }

  // ----- composed sections -----

  function StartTxIn(w: World, o: Choice): World {
    var s := StartTx(w.dma, w.port, w.hw, o.cookie, o.room);
    w.(dma := s.dma, port := s.port, hw := s.hw, out := Handed(w.out, s.sent, w.hw.dlab))
  }

  function PioIn(w: World, budget: nat): World {
    var (p, h) := Pio(w.port, w.hw, budget);
    w.(port := p, hw := h)
  }

  function Moved(w: World, r: (Dma, Port, bool)): World {
    w.(dma := r.0, port := r.1)
  }

  /** The dummy read of a receive timeout, which a byte may have reached first. */
  function DummyIn(w: World, late: Option<Byte>): World {
    var w1 := if late.Some? then Arrived(w, late.value) else w;
    var (p, h) := DummyRead(w1.port, w1.hw);
    w1.(port := p, hw := h)
  }

  /** PIO after a receive timeout, including the dummy read. */
  function TimeoutPio(w: World, budget: nat, marker: bool, late: Option<Byte>): World {
    if PioRead(w.hw, budget, marker) then PioIn(w, budget) else DummyIn(w, late)
  }

  /** One turn of the interrupt loop; `budget` is what is left after entering it. */
  function Dispatch(w: World, id: nat, budget: nat, o: Choice): World {
    if id == 2 then StartTxIn(w, o)
    else if id == 4 then
      var (d, owned) := RxStart(w.dma, o.cookie);
      if owned then w.(dma := d) else PioIn(w.(dma := d), budget)
    else if id == 6 then
      var r := RxError(w.dma, w.port, o.pause, o.keep);
      if r.2 then PioIn(Moved(w, r), budget) else Moved(w, r)
    else if id == 12 then
      var r := RxFlush(w.dma, w.port, true, o.pause, o.keep);
      if r.2 then TimeoutPio(Moved(w, r), budget, o.marker, o.late) else Moved(w, r)
    else w
  }

  function FinishWork(w: World, o: Choice): World
    requires w.worker.Synced?
  {
    var (d, resume) := DmaModel.WorkFinish(w.dma, w.worker.tx, w.worker.rx);
    var w1 := w.(dma := d, worker := Parked);
    if !resume then w1
    else
      var w2 := if w.worker.rx then PioIn(w1, IRQ_BUDGET) else w1;
      if w.worker.tx then StartTxIn(w2, o) else w2
  }

  const IRQ_BUDGET: nat := 256

  function EndConfigure(w: World, synchronized: bool, o: Choice): World {
    var (d, resume) := ConfigureEnd(w.dma, synchronized);
    var w1 := w.(dma := d, cfg := NoChange);
    if resume then StartTxIn(w1, o) else w1
  }

  // ----- the step relation -----

  predicate Enabled(w: World, s: Step) {
    match s
    case Arrive(_) => true
    case FifoReset => true
    case RbrRead => !w.hw.dlab
    case TxMove => w.dma.tx.live && w.dma.tx.done < w.dma.tx.size && w.dma.tx.done < |w.dma.tx.mem|
    case TxDone => w.dma.tx.live && w.dma.tx.done == w.dma.tx.size
    case RxMove => w.dma.rx.live && w.dma.rx.done < w.dma.rx.size && w.hw.fifo != []
    case RxDone => w.dma.rx.live && w.dma.rx.done == w.dma.rx.size
    case Write(_) => w.life.Open?
    case Kick(_) => w.life.Open? && w.kicks > 0
    case StopOutput => w.life.Open?
    case ResumeOutput => w.life.Open?
    case SendX(_, _) => w.life.Open?
    case FlushBuffer(_) => w.life.Open?
    case StopRx(_) => w.life.Open?
    case Irq(id, _, _) =>
      && (w.life.Open? || w.life.Deactivated?)
      && (id == 2 || id == 4 || id == 6 || id == 12 ==> !w.hw.dlab)
      && (id == 2 ==> w.hw.ierTx)
      && (id == 4 || id == 12 ==> w.hw.ierRx)
      && (id == 6 ==> w.hw.ierLsr)
    case TxCallback(_) => w.dma.tx.callback
    case RxCallback => w.dma.rx.callback
    case WorkStart => w.dma.armed && w.worker.Parked?
    case WorkPrepare(_) => w.worker.Started?
    case WorkSyncTx => w.worker.Prepared?
    case WorkSyncRx => w.worker.TxStopped?
    case WorkFinish(_) => w.worker.Synced?
    case CfgBegin(_, _) => w.life.Open? && w.cfg.NoChange?
    case CfgDrained => w.cfg.Begun? && w.dma.st.tx != Running
    case CfgCancel => w.cfg.Drained? && w.worker.Parked?
    case CfgSyncTx => w.cfg.Cancelled?
    case CfgSyncRx => w.cfg.HalfSynced?
    case CfgApply(v) => w.cfg.Quiesced? && Consistent(w.hw.dlab, v)
    case CfgEnd(_) => w.cfg.Applied?
    case CfgGiveUp(_) => w.cfg.Begun?
    case Startup => w.life.Closed?
    case Deactivate => w.life.Open? && w.cfg.NoChange?
    case CloseWork => w.life.Deactivated? && w.worker.Parked?
    case CloseTx => w.life.WorkGone?
    case CloseRx => w.life.TxGone?
  }

  /** Registers that are as they were have DLAB as it was. */
  predicate Consistent(dlab: bool, v: Verdict) {
    v.Rejected? && v.registers ==> v.dlab == dlab
  }

  // One function per kind of step, each total, so that proofs see one at a time.

  function Arrived(w: World, b: Byte): World {
    w.(hw := w.hw.(fifo := w.hw.fifo + [b]),
       port := w.port.(log := w.port.log.(arrived := w.port.log.arrived + [b])))
  }

  /** A reset of the receive FIFO, as after every ignored LCR write. */
  function FifoCleared(w: World): World {
    w.(hw := w.hw.(fifo := []), port := Waste(w.port, w.dma.st.rx == Running, w.hw.fifo, Reset))
  }

  /** The read of the data register that follows the reset takes a byte that came in between. */
  function ByteSkipped(w: World): World {
    if w.hw.fifo == [] then w
    else w.(hw := w.hw.(fifo := w.hw.fifo[1..]), port := Waste(w.port, w.dma.st.rx == Running, w.hw.fifo[..1], Eaten))
  }

  function TxMoved(w: World): World
    requires Enabled(w, TxMove)
  {
    w.(dma := w.dma.(tx := w.dma.tx.(done := w.dma.tx.done + 1)),
       out := Handed(w.out, [w.dma.tx.mem[w.dma.tx.done]], w.hw.dlab))
  }

  function TxCompleted(w: World): World {
    w.(dma := w.dma.(tx := w.dma.tx.(live := false, callback := true)))
  }

  function RxMoved(w: World): World
    requires Enabled(w, RxMove)
  {
    var b := w.hw.fifo[0];
    w.(dma := w.dma.(rx := w.dma.rx.(mem := w.dma.rx.mem + [b], done := w.dma.rx.done + 1)),
       port := w.port.(log := w.port.log.(flight := w.port.log.flight + [Fate(b, Buffered)])),
       hw := w.hw.(fifo := w.hw.fifo[1..]))
  }

  function RxCompleted(w: World): World {
    w.(dma := w.dma.(rx := w.dma.rx.(live := false, callback := true)))
  }

  function Written(w: World, bytes: seq<Byte>): World {
    w.(port := w.port.(queue := w.port.queue + bytes),
       out := w.out.(written := w.out.written + bytes),
       kicks := w.kicks + 1)
  }

  function Kicked(w: World, o: Choice): World
    requires w.kicks > 0
  {
    var w1 := w.(kicks := w.kicks - 1);
    if w.port.stopped then w1 else StartTxIn(w1, o)
  }

  function Flushed(w: World, o: Choice): World {
    w.(port := w.port.(queue := []),
       dma := TxFlush(w.dma, o.keep),
       hw := w.hw.(ierTx := false),
       out := NextEpoch(w.out))
  }

  function RxStopped(w: World, o: Choice): World {
    var r := StopReceive(w.dma, w.port, o.pause, o.keep);
    w.(dma := r.0, port := r.1, hw := w.hw.(ierRx := false, ierLsr := false))
  }

  function TxCalledBack(w: World, o: Choice): World {
    var d0 := w.dma.(tx := w.dma.tx.(callback := false));
    var r := TxComplete(d0, w.port);
    if r.2 then StartTxIn(Moved(w, r), o) else Moved(w, r)
  }

  function RxCalledBack(w: World): World {
    var d0 := w.dma.(rx := w.dma.rx.(callback := false));
    Moved(w, RxComplete(d0, w.port))
  }

  function WorkPrepared(w: World, o: Choice): World {
    var (d, p, tx, rx) := DmaModel.WorkPrepare(w.dma, w.port, o.pause, o.keep);
    w.(dma := d, port := p, worker := Prepared(tx, rx))
  }

  /** stop_sync of the chosen channels, as `synchronize` does. */
  function Synchronized(d: Dma, tx: bool, rx: bool): Dma {
    d.(tx := if d.available && tx then StopSync(d.tx) else d.tx,
       rx := if d.available && rx then StopSync(d.rx) else d.rx)
  }

  function ConfigureBegun(w: World, c: Change, o: Choice): World {
    var r := ConfigureBegin(w.dma, w.port, o.pause, o.keep);
    w.(dma := r.0, port := r.1, cfg := Begun(c))
  }

  function ChangeApplied(w: World, c: Change, v: Verdict): World {
    w.(line := if v.Accepted? then Settings(c.next) else if v.registers && v.clock then w.line else Garbled,
       reported := if v.Accepted? then c.next else Fallback(c),
       hw := w.hw.(dlab := v.Rejected? && v.dlab),
       cfg := Applied(c))
  }

  function Opened(w: World): World {
    w.(dma := Activate(w.dma),
       port := Port([], w.port.stopped, w.port.xchar, [], NO_RX),
       hw := Hw(false, true, true, [], w.hw.dlab),
       kicks := 0, life := Open,
       out := NextEpoch(w.out))
  }

  function ShutDown(w: World): World {
    w.(dma := DmaModel.Deactivate(w.dma),
       hw := w.hw.(ierTx := false, ierRx := false, ierLsr := false),
       life := Deactivated)
  }

  function Next(w: World, s: Step): World
    requires Enabled(w, s)
  {
    match s
    case Arrive(b) => Arrived(w, b)
    case FifoReset => FifoCleared(w)
    case RbrRead => ByteSkipped(w)
    case TxMove => TxMoved(w)
    case TxDone => TxCompleted(w)
    case RxMove => RxMoved(w)
    case RxDone => RxCompleted(w)
    case Write(bytes) => Written(w, bytes)
    case Kick(o) => Kicked(w, o)
    case StopOutput => w.(port := w.port.(stopped := true), hw := w.hw.(ierTx := false))
    case ResumeOutput => w.(port := w.port.(stopped := false), kicks := w.kicks + 1)
    case SendX(b, o) => StartTxIn(w.(port := w.port.(xchar := Some(b))), o)
    case FlushBuffer(o) => Flushed(w, o)
    case StopRx(o) => RxStopped(w, o)
    case Irq(id, budget, o) => Dispatch(w, id, budget, o)
    case TxCallback(o) => TxCalledBack(w, o)
    case RxCallback => RxCalledBack(w)
    case WorkStart => w.(dma := w.dma.(armed := false), worker := Worker.Started)
    case WorkPrepare(o) => WorkPrepared(w, o)
    case WorkSyncTx =>
      w.(dma := Synchronized(w.dma, w.worker.tx, false), worker := TxStopped(w.worker.tx, w.worker.rx))
    case WorkSyncRx =>
      w.(dma := Synchronized(w.dma, false, w.worker.rx), worker := Synced(w.worker.tx, w.worker.rx))
    case WorkFinish(o) => FinishWork(w, o)
    case CfgBegin(c, o) => ConfigureBegun(w, c, o)
    case CfgDrained => w.(cfg := Drained(w.cfg.c))
    case CfgCancel => w.(dma := w.dma.(armed := false), cfg := Cancelled(w.cfg.c))
    case CfgSyncTx => w.(dma := Synchronized(w.dma, true, false), cfg := HalfSynced(w.cfg.c))
    case CfgSyncRx => w.(dma := Synchronized(w.dma, false, true), cfg := Quiesced(w.cfg.c))
    case CfgApply(v) => ChangeApplied(w, w.cfg.c, v)
    case CfgEnd(o) => EndConfigure(w, true, o)
    case CfgGiveUp(o) => EndConfigure(w.(reported := Fallback(w.cfg.c)), false, o)
    case Startup => Opened(w)
    case Deactivate => ShutDown(w)
    case CloseWork => w.(dma := w.dma.(armed := false), life := WorkGone)
    case CloseTx => w.(dma := Synchronized(w.dma, true, false), life := TxGone)
    case CloseRx => w.(dma := Synchronized(w.dma, false, true), life := Closed)
  }

  // ----- runs -----

  /** Termios past configure_sync's cancellation of the worker, before configure_end. */
  predicate PastCancel(t: Termios) {
    t.Cancelled? || t.HalfSynced? || t.Quiesced? || t.Applied?
  }

  /**
   * The one interleaving the driver does not survive: an output flush that finds
   * TX Stopping after configure_sync has cancelled the worker re-arms it.
   */
  predicate Hazard(w: World, s: Step) {
    s.FlushBuffer? && PastCancel(w.cfg) && w.dma.st.tx == Stopping
  }

  predicate Legal(w: World, run: seq<Step>)
    decreases |run|
  {
    run == [] || (Enabled(w, run[0]) && Legal(Next(w, run[0]), run[1..]))
  }

  function Exec(w: World, run: seq<Step>): World
    requires Legal(w, run)
    decreases |run|
  {
    if run == [] then w else Exec(Next(w, run[0]), run[1..])
  }

  /** No step of the run is hazardous where it is taken. */
  predicate Tame(w: World, run: seq<Step>)
    requires Legal(w, run)
    decreases |run|
  {
    run == [] || (!Hazard(w, run[0]) && Tame(Next(w, run[0]), run[1..]))
  }
}
