// Value-level specification of the UART DMA driver: one record per stateful
// object and one function per section that runs under the UART port lock.
// The classes in Driver*.dfy are proved to compute exactly these functions;
// UartSteps.dfy interleaves them and the invariant proofs reason about them.

module DmaModel {
  import opened Common

  const TX_SIZE: nat := 256
  const RX_SIZE: nat := 512

  datatype Phase = Idle | Running | Stopping

  /** The bookkeeping record of serial/dma/state.rs. */
  datatype State = State(
    active: bool,
    configuring: bool,
    receive: bool,
    tx: Phase,
    rx: Phase,
    txCookie: int,
    rxCookie: int,
    txLen: nat,
    rxCpuSafe: bool,
    rxFailed: bool,
    txFailed: bool)

  const FRESH: State := State(false, false, false, Idle, Idle, 0, 0, 0, true, false, false)

  /**
   * One slave channel and its bounce buffer. `live` says a descriptor may still
   * move bytes, `callback` that its completion callback is dispatched but has
   * not run. A transmit channel keeps the whole block in `mem`; a receive
   * channel keeps the prefix written so far.
   */
  datatype Channel = Channel(
    live: bool,
    paused: bool,
    callback: bool,
    mem: seq<Byte>,
    size: nat,
    done: nat,
    cookie: int)

  const IDLE_CHANNEL: Channel := Channel(false, false, false, [], 0, 0, 0)

  predicate Quiet(c: Channel) {
    !c.live && !c.callback
  }

  /** dmaengine_terminate_async: `keep` tells whether a dispatched callback survives it. */
  function StopAsync(c: Channel, keep: bool): Channel {
    c.(live := false, paused := false, callback := c.callback && keep)
  }

  /** dmaengine_terminate_sync: neither transfer nor callback is left. */
  function StopSync(c: Channel): Channel {
    c.(live := false, paused := false, callback := false)
  }

  /** A freshly issued descriptor. */
  function Issued(mem: seq<Byte>, size: nat, cookie: int): Channel {
    Channel(true, false, false, mem, size, 0, cookie)
  }

  /**
   * What became of a byte that left the receive FIFO: it reached the TTY, it was in
   * a DMA buffer that could not be read, somebody read the data register without
   * looking, the FIFO was reset, or it is still in the DMA buffer.
   */
  datatype How = Delivered | Gap | Eaten | Reset | Buffered
  datatype Fate = Fate(byte: Byte, how: How)

  /**
   * Receive history of the current session. `flight` holds the bytes that left the
   * FIFO since the running DMA transfer started and joins `fate` when it ends. The
   * last transfer that could not be read covers `gapSpan` entries from `gapAt` on.
   */
  datatype RxLog = RxLog(
    arrived: seq<Byte>,
    fate: seq<Fate>,
    flight: seq<Fate>,
    gapAt: nat,
    gapSpan: nat,
    gapLen: nat,
    eaten: nat,
    reset: nat)

  const NO_RX: RxLog := RxLog([], [], [], 0, 0, 0, 0, 0)

  function Tag(bytes: seq<Byte>, how: How): seq<Fate> {
    seq(|bytes|, i requires 0 <= i < |bytes| => Fate(bytes[i], how))
  }

  /** The entries of a transfer that ended: what it buffered now has the fate `to`. */
  function Resolve(f: seq<Fate>, to: How): seq<Fate> {
    seq(|f|, i requires 0 <= i < |f| => if f[i].how == Buffered then f[i].(how := to) else f[i])
  }

  /**
   * Serial core's side of the port: the transmit queue, software flow control,
   * the pending XON/XOFF byte and everything handed to the TTY so far.
   */
  datatype Port = Port(
    queue: seq<Byte>,
    stopped: bool,
    xchar: Option<Byte>,
    tty: seq<Byte>,
    log: RxLog)

  /** Bytes read from the FIFO by hand. */
  function Deliver(p: Port, bytes: seq<Byte>): Port {
    p.(tty := p.tty + bytes, log := p.log.(fate := p.log.fate + Tag(bytes, Delivered)))
  }

  /** A DMA transfer ended with these bytes in its buffer. */
  function HandOver(p: Port, bytes: seq<Byte>): Port {
    p.(tty := p.tty + bytes,
       log := p.log.(fate := p.log.fate + Resolve(p.log.flight, Delivered), flight := []))
  }

  /** A failed pause: the bytes already in the DMA buffer can never be read. */
  function Lose(p: Port, bytes: seq<Byte>): Port {
    p.(log := p.log.(fate := p.log.fate + Resolve(p.log.flight, Gap),
                     flight := [],
                     gapAt := |p.log.fate|,
                     gapSpan := |p.log.flight|,
                     gapLen := |bytes|))
  }

  /** Bytes that leave the FIFO unread, while a DMA transfer is `running` or not. */
  function Waste(p: Port, running: bool, bytes: seq<Byte>, how: How): Port {
    var log := if running then p.log.(flight := p.log.flight + Tag(bytes, how))
               else p.log.(fate := p.log.fate + Tag(bytes, how));
    p.(log := if how == Reset then log.(reset := log.reset + |bytes|) else log.(eaten := log.eaten + |bytes|))
  }

  /** The DMA half of the driver: channels, their state and the delayed work. */
  datatype Dma = Dma(
    available: bool,
    st: State,
    tx: Channel,
    rx: Channel,
    armed: bool)

  function Schedule(d: Dma): Dma {
    if d.st.active then d.(armed := true) else d
  }

  // ----- serial/dma/state.rs -----

  function CompleteTx(s: State): (State, Option<nat>) {
    if !s.active || s.tx != Running then (s, None)
    else (s.(txLen := 0, tx := Idle), Some(s.txLen))
  }

  function CancelTx(s: State): (State, bool) {
    if !s.active || s.tx == Idle then (s, false)
    else (s.(txLen := 0, tx := Stopping), true)
  }

  function CompleteRx(s: State): (State, bool) {
    if !s.active || s.rx != Running then (s, false)
    else (s.(rx := Idle, rxCpuSafe := true), true)
  }

  // ----- serial/dma.rs -----

  /** True means DMA owns the transmit path. `cookie` is the provider's answer to a submit. */
  function TxStart(d: Dma, p: Port, cookie: Option<int>): (Dma, bool) {
    if !d.available || !d.st.active then (d, false)
    else if d.st.configuring || d.st.tx != Idle then (d, true)
    else if d.st.txFailed || p.xchar.Some? || p.stopped || p.queue == [] then (d, false)
    else
      var count := Min(TX_SIZE, |p.queue|);
      var block := p.queue[..count];
      match cookie
      case Some(c) =>
        (d.(tx := Issued(block, count, c), st := d.st.(txCookie := c, txLen := count, tx := Running)), true)
      case None =>
        (d.(tx := d.tx.(mem := block), st := d.st.(txFailed := true)), false)
  }

  function TxComplete(d: Dma, p: Port): (Dma, Port, bool) {
    var (s, count) := CompleteTx(d.st);
    if count.None? then (d, p, false)
    else (d.(st := s), p.(queue := p.queue[Min(count.value, |p.queue|)..]), true)
  }

  function TxFlush(d: Dma, keep: bool): Dma {
    if !d.available then d
    else
      var (s, cancelled) := CancelTx(d.st);
      if !cancelled then d
      else Schedule(d.(st := s, tx := StopAsync(d.tx, keep)))
  }

  /** True means DMA owns the receive FIFO. */
  function RxStart(d: Dma, cookie: Option<int>): (Dma, bool) {
    if !d.available || !d.st.active || !d.st.receive then (d, false)
    else if d.st.rx == Stopping then (d, !d.st.rxCpuSafe)
    else if d.st.rx == Running then (d, true)
    else if d.st.configuring || d.st.rxFailed then (d, false)
    else
      match cookie
      case Some(c) =>
        (Schedule(d.(rx := Issued([], RX_SIZE, c),
                     st := d.st.(rx := Running, rxCookie := c, rxCpuSafe := false))), true)
      case None =>
        (d.(st := d.st.(rxFailed := true)), false)
  }

  function RxComplete(d: Dma, p: Port): (Dma, Port, bool) {
    if !d.available then (d, p, false)
    else
      var (s, completed) := CompleteRx(d.st);
      if !completed then (d, p, false)
      else (d.(st := s), HandOver(p, d.rx.mem), true)
  }

  /** The provider's answer to a pause request followed by a status query. */
  datatype Answer = Refused | Stable | Nonsense(residue: nat)
  type Pause = a: Answer | a.Nonsense? ==> a.residue > RX_SIZE witness Stable

  /** The last component says whether PIO may drain the hardware FIFO. */
  function RxFlush(d: Dma, p: Port, schedule: bool, pause: Pause, keep: bool): (Dma, Port, bool) {
    if !d.available || d.st.rx == Idle then (d, p, true)
    else if d.st.rx == Stopping then (d, p, d.st.rxCpuSafe)
    else
      var safe := pause.Stable?;
      var st := d.st.(rx := Stopping,
                      rxCpuSafe := safe || d.st.rxCpuSafe,
                      rxFailed := !safe || d.st.rxFailed);
      var d1 := d.(st := st, rx := StopAsync(d.rx, keep));
      (if schedule then Schedule(d1) else d1,
       if safe then HandOver(p, d.rx.mem) else Lose(p, d.rx.mem),
       st.rxCpuSafe)
  }

  function RxError(d: Dma, p: Port, pause: Pause, keep: bool): (Dma, Port, bool) {
    RxFlush(d.(st := d.st.(rxFailed := true)), p, true, pause, keep)
  }

  function StopReceive(d: Dma, p: Port, pause: Pause, keep: bool): (Dma, Port, bool) {
    RxFlush(d.(st := d.st.(receive := false)), p, true, pause, keep)
  }

  /** The booleans are the worker's snapshot: which directions it must synchronize. */
  function WorkPrepare(d: Dma, p: Port, pause: Pause, keep: bool): (Dma, Port, bool, bool) {
    if !d.st.active then (d, p, false, false)
    else
      var (d1, p1, _) := RxFlush(d, p, false, pause, keep);
      (d1, p1, d1.st.tx == Stopping, d1.st.rx == Stopping)
  }

  function WorkFinish(d: Dma, tx: bool, rx: bool): (Dma, bool) {
    var s1 := if tx then d.st.(tx := Idle) else d.st;
    var s2 := if rx then s1.(rx := Idle, rxCpuSafe := true) else s1;
    (d.(st := s2), s2.active && !s2.configuring)
  }

  function ConfigureBegin(d: Dma, p: Port, pause: Pause, keep: bool): (Dma, Port, bool) {
    RxFlush(d.(st := d.st.(configuring := true)), p, true, pause, keep)
  }

  function ConfigureEnd(d: Dma, synchronized: bool): (Dma, bool) {
    var s1 := if synchronized then d.st.(tx := Idle, rx := Idle, rxCpuSafe := true) else d.st;
    (d.(st := s1.(configuring := false)), s1.active)
  }

  function Activate(d: Dma): Dma {
    d.(st := FRESH.(active := true, receive := true))
  }

  function Deactivate(d: Dma): Dma {
    d.(st := d.st.(active := false, receive := false))
  }

  // ----- rust_dw_uart.rs -----

  /**
   * The interrupt enables and the receive FIFO of the controller. While `dlab` is
   * left set, the enables the driver reads and writes sit in the divisor latch and
   * no source is unmasked.
   */
  datatype Hw = Hw(ierTx: bool, ierRx: bool, ierLsr: bool, fifo: seq<Byte>, dlab: bool)

  /** Result of filling the transmit FIFO by hand. */
  datatype Filled = Filled(port: Port, sent: seq<Byte>, exhausted: bool)

  /**
   * Fills up to `room` free slots: the XON/XOFF byte first, then queued bytes
   * unless the line is stopped. `exhausted` tells that a slot found no byte.
   */
  function Fill(p: Port, room: nat): Filled {
    var urgent := if p.xchar.Some? then 1 else 0;
    var ready := if p.stopped then 0 else |p.queue|;
    var k := if room < urgent then 0 else Min(room - urgent, ready);
    Filled(p.(xchar := if room >= 1 then None else p.xchar, queue := p.queue[k..]),
           p.queue[..k],
           room > urgent + ready)
  }

  /** Result of the controller's start_tx: `sent` are the ordinary bytes PIO handed over. */
  datatype Started = Started(dma: Dma, port: Port, hw: Hw, sent: seq<Byte>)

  function StartTx(d: Dma, p: Port, h: Hw, cookie: Option<int>, room: nat): Started {
    var (d1, owned) := TxStart(d, p, cookie);
    if owned then Started(d1, p, h.(ierTx := false), [])
    else
      var f := Fill(p, room);
      Started(d1, f.port, h.(ierTx := !f.exhausted), f.sent)
  }

  /** Programmed receive: moves at most `budget` bytes from the FIFO to the TTY. */
  function Pio(p: Port, h: Hw, budget: nat): (Port, Hw) {
    var k := Min(budget, |h.fifo|);
    (Deliver(p, h.fifo[..k]), h.(fifo := h.fifo[k..]))
  }

  /** Whether `receive` reports that it read anything; `marker` is a break without data. */
  predicate PioRead(h: Hw, budget: nat, marker: bool) {
    budget > 0 && (h.fifo != [] || marker)
  }

  /** The dummy RBR read after a receive timeout for which nothing was read. */
  function DummyRead(p: Port, h: Hw): (Port, Hw) {
    if h.fifo == [] then (p, h)
    else (Waste(p, false, h.fifo[..1], Eaten), h.(fifo := h.fifo[1..]))
  }
}
