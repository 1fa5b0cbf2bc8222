// The inductive invariant of the port and the proof that every step keeps it.

module UartInvariant {
  import opened Common
  import opened DmaModel
  import opened ReceiveHistory
  import opened UartModel

  /** Bytes DMA has taken from the FIFO and not yet handed on. */
  function InFlight(d: Dma): seq<Byte> {
    if d.st.rx == Running then d.rx.mem else []
  }

  // ----- the invariant -----

  ghost predicate TxShape(d: Dma) {
    && (d.tx.callback ==> !d.tx.live)
    && (d.tx.live ==> d.st.tx == Running)
    && (d.st.tx == Idle ==> Quiet(d.tx))
    && (d.st.tx == Stopping ==> d.st.txLen == 0)
    && (d.st.tx == Running ==>
          && 0 < d.st.txLen <= TX_SIZE
          && d.tx.size == d.st.txLen == |d.tx.mem|
          && d.tx.done <= d.tx.size
          && (d.st.active && !d.tx.live ==> d.tx.callback && d.tx.done == d.tx.size))
    && (d.st.txFailed ==> d.st.tx == Idle)
    && (!d.available ==> d.st.tx == Idle)
  }

  /** Bytes of the current epoch that no one has handed to the controller yet. */
  function Unsent(d: Dma, p: Port): seq<Byte>
    requires d.st.tx == Running ==> d.tx.done <= |d.tx.mem| && d.st.txLen <= |p.queue|
  {
    if d.st.tx == Running then d.tx.mem[d.tx.done..] + p.queue[d.st.txLen..] else p.queue
  }

  ghost predicate TxLedger(d: Dma, p: Port, out: TxLog)
    requires TxShape(d)
  {
    && (d.st.active && d.st.tx == Running ==>
          d.st.txLen <= |p.queue| && d.tx.mem == p.queue[..d.st.txLen])
    && (d.st.active ==> out.written == out.sent + Unsent(d, p))
    && (!d.st.active && d.tx.live ==> IsPrefix(out.sent + d.tx.mem[d.tx.done..], out.written))
    && IsPrefix(out.sent, out.written)
    && (forall i :: 0 <= i < |out.past| ==> IsPrefix(out.past[i].sent, out.past[i].written))
  }

  ghost predicate RxShape(d: Dma) {
    && (d.rx.callback ==> !d.rx.live)
    && !d.rx.paused
    && (d.rx.live ==> d.st.rx == Running)
    && (d.st.rx == Idle ==> Quiet(d.rx) && d.st.rxCpuSafe)
    && (d.st.rx == Stopping && !d.st.rxCpuSafe ==> d.st.rxFailed)
    && (d.st.rx == Running ==>
          && !d.st.rxCpuSafe
          && d.rx.size == RX_SIZE
          && |d.rx.mem| == d.rx.done <= RX_SIZE
          && d.rx.cookie == d.st.rxCookie
          && (d.st.active && !d.rx.live ==> d.rx.callback && d.rx.done == RX_SIZE))
    && (!d.available ==> d.st.rx == Idle)
  }

  ghost predicate RxLedger(d: Dma, p: Port, fifo: seq<Byte>) {
    && Honest(p.log)
    && p.log.arrived == Bytes(p.log.fate) + Bytes(p.log.flight) + fifo
    && p.tty == Kept(p.log.fate)
    && Pick(p.log.flight, Buffered) == InFlight(d)
    && (d.st.rx != Running ==> p.log.flight == [])
    && p.log.gapLen <= RX_SIZE
    && (p.log.gapLen > 0 ==> d.st.rxFailed && d.st.rx != Running)
  }

  predicate CoversTx(k: Worker) {
    k.Started? || (!k.Parked? && k.tx)
  }

  predicate CoversRx(k: Worker) {
    k.Started? || (!k.Parked? && k.rx)
  }

  ghost predicate WorkShape(d: Dma, k: Worker, t: Termios) {
    // a snapshot stays true until the worker itself finishes
    && (!k.Parked? && !k.Started? ==> (k.tx ==> d.st.tx == Stopping) && (k.rx ==> d.st.rx == Stopping))
    && (k.TxStopped? || k.Synced? ==> k.tx ==> Quiet(d.tx))
    && (k.Synced? ==> k.rx ==> Quiet(d.rx))
    // nothing is stranded
    && (d.st.active && d.st.tx == Stopping ==> d.armed || CoversTx(k) || PastCancel(t))
    && (d.st.active && d.st.rx == Stopping ==> d.armed || CoversRx(k) || PastCancel(t))
    && (d.st.active && d.st.rx == Running ==> d.armed || k.Started?)
  }

  ghost predicate CfgShape(d: Dma, k: Worker, life: Life, t: Termios) {
    && (d.st.active <==> life.Open?)
    && (d.st.active ==> (d.st.configuring <==> !t.NoChange?))
    && (!t.NoChange? ==> life.Open? && d.st.rx != Running)
    && (!t.NoChange? && !t.Begun? ==> d.st.tx != Running)
    && (PastCancel(t) ==> !d.armed && k.Parked?)
    && (t.HalfSynced? ==> Quiet(d.tx))
    && (t.Quiesced? || t.Applied? ==> Quiet(d.tx) && Quiet(d.rx))
  }

  ghost predicate LifeShape(d: Dma, h: Hw, k: Worker, life: Life) {
    && (d.st.active && d.st.rx == Running ==> d.st.receive)
    && (!life.Open? ==> !h.ierTx && !h.ierRx && !h.ierLsr && !d.st.receive)
    && (life.WorkGone? || life.TxGone? || life.Closed? ==> !d.armed && k.Parked?)
    && (life.TxGone? || life.Closed? ==> Quiet(d.tx))
    && (life.Closed? ==> Quiet(d.rx))
  }

  /** While DLAB is left set, no receive transfer exists and none is being ended, except by the change itself. */
  ghost predicate LatchShape(d: Dma, h: Hw, t: Termios) {
    h.dlab ==> d.st.rx == Idle || (d.st.rx == Stopping && t.Applied?)
  }

  ghost predicate KickKept(w: World) {
    w.dma.st.active && w.port.queue != [] && !w.port.stopped ==>
      w.dma.st.tx != Idle || w.dma.st.configuring || w.hw.ierTx || w.kicks > 0
  }

  ghost predicate Inv(w: World) {
    && TxShape(w.dma)
    && TxLedger(w.dma, w.port, w.out)
    && RxShape(w.dma)
    && RxLedger(w.dma, w.port, w.hw.fifo)
    && WorkShape(w.dma, w.worker, w.cfg)
    && CfgShape(w.dma, w.worker, w.life, w.cfg)
    && LifeShape(w.dma, w.hw, w.worker, w.life)
    && LatchShape(w.dma, w.hw, w.cfg)
    && KickKept(w)
  }

  lemma InitInv(channels: bool, line: int)
    ensures Inv(Init(channels, line))
  {
  }

  // ----- receive sections -----

  lemma RxFlushKeeps(d: Dma, p: Port, fifo: seq<Byte>, schedule: bool, pause: Pause, keep: bool)
    requires RxShape(d) && RxLedger(d, p, fifo)
    ensures var (d', p', safe) := RxFlush(d, p, schedule, pause, keep);
            && RxShape(d') && RxLedger(d', p', fifo)
            && d'.st.rx != Running
            && (safe ==> !d'.rx.live)
  {
    if d.available && d.st.rx == Running {
      HandOverHonest(p.log);
      LoseHonest(p.log);
      EndedLedger(d, RxFlush(d, p, schedule, pause, keep).0, p, fifo, pause.Stable?);
    }
  }

  /** The ledger after a transfer ended, with its bytes handed over or lost. */
  lemma EndedLedger(d: Dma, d': Dma, p: Port, fifo: seq<Byte>, safe: bool)
    requires RxShape(d) && RxLedger(d, p, fifo) && d.st.rx == Running && d'.st.rx != Running
    requires !safe ==> d'.st.rxFailed
    ensures RxLedger(d', if safe then HandOver(p, d.rx.mem) else Lose(p, d.rx.mem), fifo)
  {
    HandOverHonest(p.log);
    LoseHonest(p.log);
    assert Bytes([]) == [];
    assert Pick(p.log.flight, Buffered) == d.rx.mem;
    var b := Bytes(p.log.fate) + Bytes(p.log.flight);
    assert b + [] == b;
  }

  /** What a receive flush leaves alone. */
  lemma RxFlushFrame(d: Dma, p: Port, schedule: bool, pause: Pause, keep: bool)
    ensures var (d', p', _) := RxFlush(d, p, schedule, pause, keep);
            && d' == d.(rx := d'.rx, armed := d'.armed,
                        st := d.st.(rx := d'.st.rx, rxCpuSafe := d'.st.rxCpuSafe, rxFailed := d'.st.rxFailed))
            && p' == p.(tty := p'.tty, log := p'.log)
            && (d.armed ==> d'.armed)
            && (Quiet(d.rx) ==> Quiet(d'.rx))
            && (if d.available && d.st.rx == Running
                then d'.st.rx == Stopping && (schedule && d.st.active ==> d'.armed)
                else d' == d && p' == p)
  {
  }

  /** The transmit half only looks at the transmit fields. */
  lemma SameTxKeeps(d: Dma, d': Dma, p: Port, p': Port, out: TxLog)
    requires TxShape(d) && TxLedger(d, p, out)
    requires d'.tx == d.tx && d'.available == d.available && p'.queue == p.queue
    requires d'.st.active == d.st.active && d'.st.tx == d.st.tx
    requires d'.st.txLen == d.st.txLen && d'.st.txFailed == d.st.txFailed
    ensures TxShape(d') && TxLedger(d', p', out)
  {
  }

  lemma PioKeeps(d: Dma, p: Port, h: Hw, budget: nat)
    requires RxLedger(d, p, h.fifo) && d.st.rx != Running
    ensures var (p', h') := Pio(p, h, budget); RxLedger(d, p', h'.fifo)
  {
    var k := Min(budget, |h.fifo|);
    DeliverHonest(p.log, h.fifo[..k]);
    TakeFromFifo(Bytes(p.log.fate), h.fifo, k);
  }

  /** What leaves the FIFO joins the account in front of it. */
  lemma TakeFromFifo(f: seq<Byte>, fifo: seq<Byte>, k: nat)
    requires k <= |fifo|
    ensures (f + fifo[..k]) + fifo[k..] == f + fifo
    ensures Bytes([]) == [] && f + [] == f && (f + fifo[..k]) + [] == f + fifo[..k]
  {
  }

  /** Bytes taken from the FIFO without reading them. */
  lemma WasteKeeps(d: Dma, p: Port, fifo: seq<Byte>, k: nat, how: How)
    requires RxLedger(d, p, fifo) && k <= |fifo| && (how == Eaten || how == Reset)
    ensures RxLedger(d, Waste(p, d.st.rx == Running, fifo[..k], how), fifo[k..])
  {
    WasteHonest(p, d.st.rx == Running, fifo[..k], how);
    if d.st.rx == Running {
      TakeFromFifo(Bytes(p.log.fate) + Bytes(p.log.flight), fifo, k);
      assert (Bytes(p.log.fate) + Bytes(p.log.flight)) + fifo[..k]
          == Bytes(p.log.fate) + (Bytes(p.log.flight) + fifo[..k]);
    } else {
      TakeFromFifo(Bytes(p.log.fate), fifo, k);
    }
  }

  lemma DummyKeeps(d: Dma, p: Port, h: Hw)
    requires RxLedger(d, p, h.fifo) && d.st.rx != Running
    ensures var (p', h') := DummyRead(p, h); RxLedger(d, p', h'.fifo)
  {
    if h.fifo != [] {
      WasteKeeps(d, p, h.fifo, 1, Eaten);
    }
  }

  // ----- transmit sections -----

  /** What a transmit section leaves alone. */
  ghost predicate SameRx(w: World, w': World) {
    && w'.dma.rx == w.dma.rx && w'.dma.available == w.dma.available && w'.dma.armed == w.dma.armed
    && w'.dma.st == w.dma.st.(tx := w'.dma.st.tx, txCookie := w'.dma.st.txCookie,
                              txLen := w'.dma.st.txLen, txFailed := w'.dma.st.txFailed)
    && w'.port.tty == w.port.tty && w'.port.log == w.port.log
    && w'.hw == w.hw.(ierTx := w'.hw.ierTx)
    && w'.worker == w.worker && w'.life == w.life && w'.cfg == w.cfg
  }

  lemma SubmitKeeps(d: Dma, p: Port, out: TxLog, c: int)
    requires TxShape(d) && TxLedger(d, p, out)
    requires d.available && d.st.active && d.st.tx == Idle && !d.st.txFailed && p.queue != []
    ensures var count := Min(TX_SIZE, |p.queue|);
            var d' := d.(tx := Issued(p.queue[..count], count, c),
                         st := d.st.(txCookie := c, txLen := count, tx := Running));
            TxShape(d') && TxLedger(d', p, out)
  {
  }

  lemma SplitPrefix(a: seq<Byte>, b: seq<Byte>, k: nat)
    requires k <= |b|
    ensures a + b == (a + b[..k]) + b[k..]
    ensures IsPrefix(a + b[..k], a + b)
  {
  }

  lemma FillKeeps(d: Dma, p: Port, out: TxLog, room: nat, dlab: bool)
    requires TxShape(d) && TxLedger(d, p, out) && d.st.active && d.st.tx == Idle
    ensures var f := Fill(p, room);
            && TxLedger(d, f.port, Handed(out, f.sent, dlab))
            && (f.exhausted ==> f.port.queue == [] || f.port.stopped)
  {
    var f := Fill(p, room);
    SplitPrefix(out.sent, p.queue, |f.sent|);
  }

  lemma StartTxParts(d: Dma, p: Port, h: Hw, out: TxLog, cookie: Option<int>, room: nat)
    requires TxShape(d) && TxLedger(d, p, out) && d.st.active
    ensures var s := StartTx(d, p, h, cookie, room);
            && TxShape(s.dma) && TxLedger(s.dma, s.port, Handed(out, s.sent, h.dlab))
            && (s.port.queue == [] || s.port.stopped
                || s.dma.st.tx != Idle || s.dma.st.configuring || s.hw.ierTx)
  {
    var (d1, owned) := TxStart(d, p, cookie);
    if owned {
      assert out.sent + [] == out.sent;
      if d.st.tx == Idle && !d.st.configuring {
        SubmitKeeps(d, p, out, cookie.value);
      }
    } else {
      assert d1.st.tx == Idle;
      FillKeeps(d1, p, out, room, h.dlab);
    }
  }

  /** start_tx keeps the transmit half and never leaves a waiting byte without a kick. */
  lemma StartTxKeeps(w: World, o: Choice)
    requires TxShape(w.dma) && TxLedger(w.dma, w.port, w.out) && w.dma.st.active
    ensures var w' := StartTxIn(w, o);
            TxShape(w'.dma) && TxLedger(w'.dma, w'.port, w'.out) && KickKept(w')
  {
    StartTxParts(w.dma, w.port, w.hw, w.out, o.cookie, o.room);
  }

  lemma StartTxFrame(w: World, o: Choice)
    ensures SameRx(w, StartTxIn(w, o))
    ensures w.dma.st.active && (w.dma.st.tx != Idle || w.dma.st.configuring) ==> StartTxIn(w, o).dma == w.dma
    ensures StartTxIn(w, o).dma.st.tx == Stopping ==> w.dma.st.tx == Stopping
  {
    var (d1, owned) := TxStart(w.dma, w.port, o.cookie);
  }

  lemma SameRxKeeps(w: World, w': World)
    requires SameRx(w, w') && RxShape(w.dma) && RxLedger(w.dma, w.port, w.hw.fifo)
    ensures RxShape(w'.dma) && RxLedger(w'.dma, w'.port, w'.hw.fifo)
  {
  }
}
