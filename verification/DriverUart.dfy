// linux/drivers/rust_dw_uart.rs and the callbacks of rust/kernel/serial.rs: the
// controller and the port that ties it to the DMA state machine. Every entry
// point is proved to be one step of UartModel (or a run of interrupt steps), so
// what the theorems say about runs holds of these methods.

module DriverUart {
  import opened Common
  import opened DriverDma
  import opened DriverPort
  import opened UartInvariant
  import opened InterruptLoop
  import opened PioLaws
  import Model = DmaModel
  import opened UartModel
  import UartSteps

  class DwUart {
    const fifoSize: nat
    var ierTx: bool
    var ierRx: bool
    var ierLsr: bool
    var fifo: seq<Byte>
    var dlab: bool

    ghost function View(): Model.Hw
      reads this
    {
      Model.Hw(ierTx, ierRx, ierLsr, fifo, dlab)
    }

    constructor (fifoSize: nat)
      ensures this.fifoSize == fifoSize
      ensures View() == Model.Hw(false, false, false, [], false)
    {
      this.fifoSize := fifoSize;
      ierTx, ierRx, ierLsr, fifo, dlab := false, false, false, [], false;
    }

    method StopTx()
      modifies this
      ensures View() == old(View()).(ierTx := false)
    {
      ierTx := false;
    }

    method StopRx()
      modifies this
      ensures View() == old(View()).(ierRx := false, ierLsr := false)
    {
      ierRx, ierLsr := false, false;
    }

    /** Resets the FIFOs and enables the receive interrupts. */
    method Startup()
      modifies this
      ensures View() == Model.Hw(false, true, true, [], old(dlab))
    {
      ierTx, ierRx, ierLsr := false, false, false;
      fifo := [];
      ierRx, ierLsr := true, true;
    }

    /**
     * Fills the transmit FIFO, which reports `room` free slots; returns the ordinary bytes.
     * A pending XON/XOFF byte takes the first slot, queued bytes the others unless the line
     * is stopped, and the interrupt is masked exactly when a slot is left over.
     */
    method Transmit(port: LockedPort, room: nat) returns (sent: seq<Byte>)
      requires room <= fifoSize
      modifies this, port
      ensures Fills(old(port.View()), room, port.View(), sent)
      ensures View() == old(View()).(ierTx := old(ierTx) && !SlotLeft(old(port.View()), room))
    {
      ghost var p := port.View();
      sent := [];
      var i := 0;
      while i < fifoSize && i < room
        invariant i <= room && View() == old(View())
        invariant |sent| == i - (if i == 0 then 0 else Urgent(p)) <= Ready(p) && sent == p.queue[..|sent|]
        invariant port.View() == p.(xchar := if i > 0 then None else p.xchar, queue := p.queue[|sent|..])
      {
        var priority := port.xchar.Some?;
        var byte := port.NextTx();
        if byte == None {
          StopTx();
          break;
        }
        if !priority {
          sent := sent + [byte.value];
        }
        i := i + 1;
      }
      assert |sent| == Fitting(p, room);
    }

    /** Reads one byte of the FIFO and hands it to the TTY. */
    method ReadByte(port: LockedPort)
      requires fifo != []
      modifies this, port
      ensures View() == old(View()).(fifo := old(fifo)[1..])
      ensures port.View() == Model.Deliver(old(port.View()), [old(fifo)[0]])
    {
      var byte := fifo[0];
      fifo := fifo[1..];
      port.Receive(byte);
    }

    /**
     * Drains the receive FIFO within `budget`; `marker` is a break that carries no data. All
     * that the FIFO holds goes to the TTY in order, at most `budget` bytes, each costing one.
     */
    method Receive(port: LockedPort, budget: nat, marker: bool) returns (left: nat, received: bool)
      modifies this, port
      ensures Drains(old(port.tty), old(fifo), budget, port.tty, fifo)
      ensures Costs(old(fifo), fifo, budget, marker, left, received)
      ensures (port.View(), View()) == Model.Pio(old(port.View()), old(View()), budget)
      ensures received == Model.PioRead(old(View()), budget, marker)
      ensures left == PioLeft(old(View()), budget, marker)
    {
      PioCosts(port.View(), View(), budget, marker);
      ghost var start, all := port.View(), fifo;
      ghost var n := 0;
      left, received := budget, false;
      var broken := marker;
      assert start.tty + [] == start.tty && start.log.fate + Model.Tag([], Model.Delivered) == start.log.fate;
      while (fifo != [] || broken) && left > 0
        invariant 0 <= n <= |all| && fifo == all[n..]
        invariant View() == old(View()).(fifo := fifo) && port.View() == Model.Deliver(start, all[..n])
        invariant if left < budget then received && !broken && (n > 0 || (all == [] && marker))
                  else !received && n == 0 && broken == marker
        invariant left + (if received && all == [] then 1 else n) == budget
        decreases left
      {
        left := left - 1;
        if fifo != [] {
          DeliverOne(start, all, n);
          ReadByte(port);
          n := n + 1;
        }
        broken := false;
        received := true;
      }
    }

    static lemma DeliverOne(p: Model.Port, all: seq<Byte>, n: nat)
      requires n < |all|
      ensures Model.Deliver(Model.Deliver(p, all[..n]), [all[n]]) == Model.Deliver(p, all[..n + 1])
    {
    }

    static lemma NothingRead(p: Model.Port, h: Model.Hw, budget: nat)
      requires budget == 0 || h.fifo == []
      ensures Model.Pio(p, h, budget) == (p, h)
    {
      assert h.fifo[..0] == [] && h.fifo[0..] == h.fifo;
      assert p.tty + [] == p.tty && p.log.fate + Model.Tag([], Model.Delivered) == p.log.fate;
    }

    /** Reads RBR once without looking at the data. */
    method DummyRead(port: LockedPort)
      modifies this, port
      ensures (port.View(), View()) == Model.DummyRead(old(port.View()), old(View()))
    {
      if fifo != [] {
        port.log := Model.DummyRead(port.View(), View()).0.log;
        fifo := fifo[1..];
      }
    }

    /** The wire: a byte enters the FIFO between two register reads. */
    method Arrive(port: LockedPort, byte: Byte)
      modifies this, port
      ensures View() == old(View()).(fifo := old(fifo) + [byte])
      ensures port.View() == old(port.View()).(log := old(port.log).(arrived := old(port.log).arrived + [byte]))
    {
      fifo := fifo + [byte];
      port.log := port.log.(arrived := port.log.arrived + [byte]);
    }

    /**
     * Interrupt identification: a masked source reads as "no interrupt", and all are
     * masked while DLAB is left set.
     */
    method Identify(pending: nat) returns (id: nat)
      ensures id == Identified(View(), pending)
    {
      if dlab && (pending == 2 || pending == 4 || pending == 6 || pending == 12) {
        return 1;
      }
      if (pending == 2 && !ierTx) || ((pending == 4 || pending == 12) && !ierRx) || (pending == 6 && !ierLsr) {
        return 1;
      }
      id := pending;
    }
  }

  class UartPort {
    const dma: StateMachine
    const port: LockedPort
    const uart: DwUart
    // where the worker, the life cycle and a termios change are
    var worker: Worker
    var life: Life
    var cfg: Termios
    var kicks: nat
    var line: Line
    var reported: int
    ghost var out: TxLog

    predicate Valid() {
      dma.Valid()
    }

    ghost function View(): World
      reads this, dma, dma.state, dma.tx, dma.rx, port, uart
    {
      World(dma.View(), port.View(), uart.View(), worker, life, cfg, kicks, line, reported, out)
    }

    constructor (channels: bool, fifoSize: nat, line: int)
      ensures Valid() && uart.fifoSize == fifoSize
      ensures View() == Init(channels, line)
    {
      dma := new StateMachine(channels);
      port := new LockedPort();
      uart := new DwUart(fifoSize);
      worker, life, cfg := Parked, Closed, NoChange;
      kicks, this.line, reported := 0, Settings(line), line;
      out := NO_OUT;
    }

    // ----- Hardware, called with the port lock held -----

    /** The PIO half of start_tx. */
    method StartPio(room: nat)
      requires Valid() && room <= uart.fifoSize
      modifies `out, port, uart
      ensures var f := Model.Fill(old(port.View()), room);
              && port.View() == f.port
              && uart.View() == old(uart.View()).(ierTx := !f.exhausted)
              && out == Handed(old(out), f.sent, old(uart.dlab))
    {
      ghost var p := port.View();
      uart.ierTx := true;
      var sent := uart.Transmit(port, room);
      FillUnique(p, room, port.View(), sent);
      out := Handed(out, sent, uart.dlab);
    }

    method StartTx(o: Choice)
      requires Valid() && TxShape(dma.View()) && o.room <= uart.fifoSize
      modifies `out, dma.state, dma.tx, port, uart
      ensures View() == StartTxIn(old(View()), o)
    {
      var owned := dma.TxStart(port, o.cookie);
      if owned {
        uart.StopTx();
        assert out.sent + [] == out.sent && out.thr + [] == out.thr;
      } else {
        StartPio(o.room);
      }
    }

    method DrainRx(marker: bool)
      requires Valid()
      modifies port, uart
      ensures View() == PioIn(old(View()), IRQ_BUDGET)
    {
      var _, _ := ReadFifo(IRQ_BUDGET, marker);
    }

    /** The dummy read of a receive timeout; a byte may arrive just before it. */
    method LateDummyRead(late: Option<Byte>)
      requires Valid()
      modifies port, uart
      ensures View() == DummyIn(old(View()), late)
    {
      if late.Some? {
        uart.Arrive(port, late.value);
      }
      uart.DummyRead(port);
    }

    /** `receive`, which leaves everything alone when it reports that nothing was read. */
    method ReadFifo(budget: nat, marker: bool) returns (left: nat, received: bool)
      requires Valid()
      modifies port, uart
      ensures View() == PioIn(old(View()), budget)
      ensures received == Model.PioRead(old(View()).hw, budget, marker)
      ensures left == PioLeft(old(View()).hw, budget, marker)
      ensures !received ==> View() == old(View())
    {
      ghost var p, h := port.View(), uart.View();
      left, received := uart.Receive(port, budget, marker);
      if !received {
        DwUart.NothingRead(p, h, budget);
      }
    }

    /** The receive tail of an interrupt; a timeout without data needs the dummy read. */
    method ReceiveTail(id: nat, budget: nat, o: Choice) returns (left: nat)
      requires Valid()
      modifies port, uart
      ensures View() == Tail(old(View()), id, budget, o)
      ensures left == PioLeft(old(View()).hw, budget, o.marker)
    {
      var received;
      left, received := ReadFifo(budget, o.marker);
      if !received && id == 12 {
        LateDummyRead(o.late);
      }
    }

    /** Asks DMA about the receive FIFO; `stop` means that it keeps it. */
    method ClaimFifo(id: nat, o: Choice) returns (stop: bool)
      requires Valid() && RxShape(dma.View()) && (id == 4 || id == 6 || id == 12)
      modifies dma, dma.state, dma.rx, port
      ensures View() == Claimed(old(View()), id, o) && stop == Stops(old(View()), id, o)
    {
      if id == 4 {
        stop := dma.RxStart(o.cookie);
      } else if id == 6 {
        var safe := dma.RxError(port, o.pause, o.keep);
        stop := !safe;
      } else {
        var safe := dma.RxFlush(port, true, o.pause, o.keep);
        stop := !safe;
      }
    }

    /** One identified receive source; `stop` ends the loop. */
    method ServeReceive(id: nat, budget: nat, o: Choice) returns (left: nat, stop: bool)
      requires Valid() && RxShape(dma.View()) && (id == 4 || id == 6 || id == 12)
      modifies dma, dma.state, dma.rx, port, uart
      ensures View() == Dispatch(old(View()), id, budget, o)
      ensures stop == Stops(old(View()), id, o) && left == Left(old(View()), id, budget, o)
    {
      ServedIs(View(), id, budget, o);
      stop := ClaimFifo(id, o);
      left := budget;
      if !stop {
        left := ReceiveTail(id, budget, o);
      }
    }

    /** Services one identified source other than "no interrupt". */
    method Serve(id: nat, budget: nat, o: Choice) returns (left: nat, stop: bool)
      requires Valid() && Inv(View()) && o.room <= uart.fifoSize
      requires Enabled(View(), Irq(id, budget, o))
      modifies `out, dma, dma.state, dma.tx, dma.rx, port, uart
      ensures View() == Dispatch(old(View()), id, budget, o)
      ensures stop == Stops(old(View()), id, o) && left == Left(old(View()), id, budget, o)
    {
      left := budget;
      if id == 2 {
        StartTx(o);
        stop := false;
      } else if id == 4 || id == 6 || id == 12 {
        left, stop := ServeReceive(id, budget, o);
      } else {
        stop := id != 7 && id != 0;
      }
    }

    /** Looks for an interrupt and serves it: `id` is 1 when nothing was pending. */
    method ServeNext(t: Turn, budget: nat, ghost start: World, ghost done: seq<Step>)
      returns (id: nat, left: nat, stop: bool)
      requires Valid() && t.o.room <= uart.fifoSize && Taken(start, done, View())
      modifies `out, dma, dma.state, dma.tx, dma.rx, port, uart
      ensures id == Identified(old(View()).hw, t.id)
      ensures View() == if id == 1 then old(View()) else Dispatch(old(View()), id, budget, t.o)
      ensures id != 1 ==> stop == Stops(old(View()), id, t.o) && left == Left(old(View()), id, budget, t.o)
    {
      TakenKeeps(start, done, View());
      id := uart.Identify(t.id);
      left, stop := budget, true;
      if id != 1 {
        left, stop := Serve(id, budget, t.o);
      }
    }

    /** One turn of the loop, entered with `budget` left after the steps `done`; `rest` are those to come. */
    method TakeTurn(turns: seq<Turn>, k: nat, budget: nat, ghost start: World, ghost done: seq<Step>,
                    ghost rest: seq<Step>) returns (id: nat, left: nat, stop: bool)
      requires Valid() && 0 < budget && k + budget <= |turns| && turns[k].o.room <= uart.fifoSize
      requires Taken(start, done, View()) && rest == Trace(View(), turns[k..], budget)
      modifies `out, dma, dma.state, dma.tx, dma.rx, port, uart
      ensures if id == 1 then rest == [] && Taken(start, done, View())
              else
                && left < budget && rest != [] && Taken(start, done + [rest[0]], View())
                && rest[1..] == if stop then [] else Trace(View(), turns[k + 1..], left)
    {
      TakeStep(start, done, View(), turns, k, budget);
      id, left, stop := ServeNext(turns[k], budget - 1, start, done);
      if id == 1 {
        return;
      }
    }

    /**
     * The interrupt handler: at most IRQ_BUDGET turns and received bytes together.
     * `turns` are the successive readings of the identification register.
     */
    method Interrupt(turns: seq<Turn>) returns (handled: bool, ghost run: seq<Step>)
      requires Valid() && Inv(View()) && (life.Open? || life.Deactivated?)
      requires |turns| >= IRQ_BUDGET && forall t :: t in turns ==> t.o.room <= uart.fifoSize
      modifies `out, dma, dma.state, dma.tx, dma.rx, port, uart
      ensures run == Trace(old(View()), turns, IRQ_BUDGET)
      ensures IrqRun(old(View()), run) && View() == Exec(old(View()), run)
      ensures handled == (run != [])
    {
      ghost var start, done := View(), [];
      ghost var rest := Trace(start, turns, IRQ_BUDGET);
      run := rest;
      TakenNone(start, turns, IRQ_BUDGET);
      handled := false;
      var budget: nat := IRQ_BUDGET;
      var k := 0;
      while budget > 0
        invariant 0 <= k && k + budget <= IRQ_BUDGET
        invariant rest == Trace(View(), turns[k..], budget)
        invariant Taken(start, done, View()) && done + rest == run
        invariant handled == (done != [])
        decreases budget
      {
        var id, left, stop := TakeTurn(turns, k, budget, start, done, rest);
        if id == 1 {
          break;
        }
        Shift(done, rest);
        handled := true;
        done, rest := done + [rest[0]], rest[1..];
        budget := left;
        k := k + 1;
        if stop {
          break;
        }
      }
      TakenAll(start, done, View());
    }

    // ----- serial core's operations, each one section under the port lock -----

    /** startup, after request_irq. */
    method Startup()
      requires Valid() && life.Closed?
      modifies this, dma.state, port, uart
      ensures View() == Opened(old(View()))
    {
      dma.Activate();
      uart.Startup();
      port.queue, port.tty, port.log := [], [], Model.NO_RX;
      out := NextEpoch(out);
      kicks, life := 0, Open;
    }

    /** shutdown, up to free_irq. */
    method Shutdown()
      requires Valid() && life.Open?
      modifies `life, dma.state, uart
      ensures View() == ShutDown(old(View()))
    {
      dma.Deactivate();
      uart.StopRx();
      uart.StopTx();
      life := Deactivated;
    }

    /** flush_buffer, in the same section as serial core's reset of its queue. */
    method FlushBuffer(o: Choice)
      requires Valid()
      modifies `out, dma, dma.state, dma.tx, port, uart
      ensures View() == Flushed(old(View()), o)
    {
      out := NextEpoch(out);
      port.queue := [];
      dma.TxFlush(o.keep);
      uart.StopTx();
    }

    method StopReceive(o: Choice)
      requires Valid() && RxShape(dma.View())
      modifies dma, dma.state, dma.rx, port, uart
      ensures View() == RxStopped(old(View()), o)
    {
      dma.StopReceive(port, o.pause, o.keep);
      uart.StopRx();
    }

    /**
     * tx_empty; `temt` is the controller's own answer. "Empty" in an open session means
     * that no transfer can put another byte into the controller and none is unaccounted for.
     */
    method TxEmpty(temt: bool) returns (empty: bool)
      requires Valid() && Inv(View())
      ensures empty && life.Open? ==> Model.Quiet(View().dma.tx) && out.written == out.sent + port.queue
      ensures temt && !empty ==> life.Open? && View().dma.st.tx != Model.Idle
      ensures empty ==> temt
    {
      var busy := dma.TxBusy();
      empty := !busy && temt;
    }

    // ----- completion callbacks -----

    method DmaTxComplete(o: Choice)
      requires Valid() && Inv(View()) && dma.tx.callback && o.room <= uart.fifoSize
      modifies `out, dma, dma.state, dma.tx, port, uart
      ensures View() == TxCalledBack(old(View()), o)
    {
      TxCallbackShape(dma.View(), port.View(), out);
      dma.tx.callback := false;
      var completed := dma.TxComplete(port);
      if completed {
        StartTx(o);
      }
    }

    static lemma TxCallbackShape(d: Model.Dma, p: Model.Port, log: TxLog)
      requires TxShape(d) && TxLedger(d, p, log) && d.tx.callback
      ensures TxShape(Model.TxComplete(d.(tx := d.tx.(callback := false)), p).0)
    {
    }

    method DmaRxComplete(turns: seq<Turn>) returns (ghost run: seq<Step>)
      requires Valid() && Inv(View()) && dma.rx.callback
      requires |turns| >= IRQ_BUDGET && forall t :: t in turns ==> t.o.room <= uart.fifoSize
      modifies `out, dma, dma.state, dma.tx, dma.rx, port, uart
      ensures var w := RxCalledBack(old(View())); IrqRun(w, run) && View() == Exec(w, run)
      ensures var d := old(dma.View());
              run == if d.available && d.st.active && d.st.rx == Model.Running
                     then Trace(RxCalledBack(old(View())), turns, IRQ_BUDGET) else []
    {
      UartSteps.RxCallbackKeeps(View());
      run := [];
      dma.rx.callback := false;
      var completed := dma.RxComplete(port);
      if completed {
        var _, r := Interrupt(turns);
        run := r;
      }
    }

    // ----- the delayed worker: two locked sections around an unlocked one -----

    method WorkBegin()
      requires Valid() && dma.armed && worker.Parked?
      modifies `worker, dma
      ensures View() == Next(old(View()), WorkStart)
    {
      dma.armed := false;
      worker := Worker.Started;
    }

    method WorkPrepareSection(o: Choice)
      requires Valid() && RxShape(dma.View()) && worker.Started?
      modifies `worker, dma, dma.state, dma.rx, port
      ensures View() == WorkPrepared(old(View()), o)
    {
      var t, r := dma.WorkPrepare(port, o.pause, o.keep);
      worker := Prepared(t, r);
    }

    method WorkSyncTxChannel()
      requires Valid() && worker.Prepared?
      modifies `worker, dma.tx, dma.rx
      ensures View() == Next(old(View()), WorkSyncTx)
    {
      dma.Synchronize(worker.tx, false);
      worker := TxStopped(worker.tx, worker.rx);
    }

    method WorkSyncRxChannel()
      requires Valid() && worker.TxStopped?
      modifies `worker, dma.tx, dma.rx
      ensures View() == Next(old(View()), WorkSyncRx)
    {
      dma.Synchronize(false, worker.rx);
      worker := Synced(worker.tx, worker.rx);
    }

    /** The first half of the finishing section: everything before its interrupt call. */
    method WorkResume(o: Choice) returns (resume: bool)
      requires Valid() && Inv(View()) && worker.Synced? && o.room <= uart.fifoSize
      modifies `worker, `out, dma, dma.state, dma.tx, port, uart
      ensures View() == FinishWork(old(View()), o)
      ensures resume == (old(dma.state.active) && !old(dma.state.configuring))
    {
      var t, r := worker.tx, worker.rx;
      UartSteps.IdleParts(dma.View(), port.View(), out, uart.fifo, t, r);
      resume := dma.WorkFinish(t, r);
      worker := Parked;
      if resume {
        if r {
          DrainRx(o.marker);
        }
        if t {
          StartTx(o);
        }
      }
    }

    method WorkFinishSection(o: Choice, turns: seq<Turn>) returns (ghost run: seq<Step>)
      requires Valid() && Inv(View()) && worker.Synced? && o.room <= uart.fifoSize
      requires |turns| >= IRQ_BUDGET && forall t :: t in turns ==> t.o.room <= uart.fifoSize
      modifies `worker, `out, dma, dma.state, dma.tx, dma.rx, port, uart
      ensures var w := FinishWork(old(View()), o); IrqRun(w, run) && View() == Exec(w, run)
      ensures run == if old(dma.state.active) && !old(dma.state.configuring)
                     then Trace(FinishWork(old(View()), o), turns, IRQ_BUDGET) else []
    {
      UartSteps.WorkFinishKeeps(View(), o);
      run := [];
      var resume := WorkResume(o);
      if resume {
        var _, r := Interrupt(turns);
        run := r;
      }
    }

    // ----- set_termios -----

    method SetTermiosBegin(c: Change, o: Choice)
      requires Valid() && RxShape(dma.View()) && cfg.NoChange?
      modifies `cfg, dma, dma.state, dma.rx, port
      ensures View() == ConfigureBegun(old(View()), c, o)
    {
      dma.ConfigureBegin(port, o.pause, o.keep);
      cfg := Begun(c);
    }

    /** One poll of the drain loop. */
    method SetTermiosPoll() returns (drained: bool)
      requires Valid() && cfg.Begun?
      modifies `cfg
      ensures drained <==> Enabled(old(View()), CfgDrained)
      ensures View() == if drained then old(View()).(cfg := Drained(old(cfg).c)) else old(View())
    {
      var running := dma.TxRunning();
      drained := !running;
      if drained {
        cfg := Drained(cfg.c);
      }
    }

    /** configure_sync: the worker has been waited for, then both channels are synchronized. */
    method ConfigureCancel()
      requires Valid() && cfg.Drained? && worker.Parked?
      modifies `cfg, dma
      ensures View() == Next(old(View()), CfgCancel)
    {
      dma.armed := false;
      cfg := Cancelled(cfg.c);
    }

    method ConfigureSyncTx()
      requires Valid() && cfg.Cancelled?
      modifies `cfg, dma.tx, dma.rx
      ensures View() == Next(old(View()), CfgSyncTx)
    {
      dma.Synchronize(true, false);
      cfg := HalfSynced(cfg.c);
    }

    method ConfigureSyncRx()
      requires Valid() && cfg.HalfSynced?
      modifies `cfg, dma.tx, dma.rx
      ensures View() == Next(old(View()), CfgSyncRx)
    {
      dma.Synchronize(false, true);
      cfg := Quiesced(cfg.c);
    }

    /** What apply_termios did to the controller, recorded; Termios.dfy says which verdicts it reaches. */
    method ApplyTermios(v: Verdict)
      requires Valid() && cfg.Quiesced? && Consistent(uart.dlab, v)
      modifies `cfg, `line, `reported, uart
      ensures View() == ChangeApplied(old(View()), old(cfg).c, v)
    {
      cfg := Applied(cfg.c);
      match v
      case Accepted =>
        line := Settings(cfg.c.next);
        reported := cfg.c.next;
        uart.dlab := false;
      case Rejected(registers, clock, dlab) =>
        if !registers || !clock {
          line := Garbled;
        }
        reported := Fallback(cfg.c);
        uart.dlab := dlab;
    }

    /** The last locked section, up to its interrupt call. */
    method SetTermiosResume(synchronized: bool, o: Choice) returns (resume: bool)
      requires Valid() && Inv(View()) && o.room <= uart.fifoSize
      requires if synchronized then cfg.Applied? else cfg.Begun?
      modifies `cfg, `out, dma, dma.state, dma.tx, port, uart
      ensures View() == EndConfigure(old(View()), synchronized, o)
      ensures resume == old(dma.state.active)
    {
      UartSteps.IdleParts(dma.View(), port.View(), out, uart.fifo, synchronized, synchronized);
      resume := dma.ConfigureEnd(synchronized);
      cfg := NoChange;
      if resume {
        StartTx(o);
      }
    }

    method SetTermiosEnd(o: Choice, turns: seq<Turn>) returns (ghost run: seq<Step>)
      requires Valid() && Inv(View()) && cfg.Applied? && o.room <= uart.fifoSize
      requires |turns| >= IRQ_BUDGET && forall t :: t in turns ==> t.o.room <= uart.fifoSize
      modifies `cfg, `out, dma, dma.state, dma.tx, dma.rx, port, uart
      ensures var w := EndConfigure(old(View()), true, o); IrqRun(w, run) && View() == Exec(w, run)
    {
      UartSteps.CfgEndKeeps(View(), true, o);
      run := [];
      var resume := SetTermiosResume(true, o);
      if resume {
        var _, r := Interrupt(turns);
        run := r;
      }
    }

    /** The transfer did not drain: the previous settings are reported and stay. */
    method SetTermiosGiveUp(o: Choice, turns: seq<Turn>) returns (ghost run: seq<Step>)
      requires Valid() && Inv(View()) && cfg.Begun? && o.room <= uart.fifoSize
      requires |turns| >= IRQ_BUDGET && forall t :: t in turns ==> t.o.room <= uart.fifoSize
      modifies `cfg, `reported, `out, dma, dma.state, dma.tx, dma.rx, port, uart
      ensures var w0 := old(View());
              var w := EndConfigure(w0.(reported := Fallback(w0.cfg.c)), false, o);
              IrqRun(w, run) && View() == Exec(w, run)
    {
      UartSteps.GiveUpKeeps(View(), o);
      run := [];
      reported := Fallback(cfg.c);
      var resume := SetTermiosResume(false, o);
      if resume {
        var _, r := Interrupt(turns);
        run := r;
      }
    }

    // ----- close, without the port lock -----

    method CloseCancelWork()
      requires Valid() && life.Deactivated? && worker.Parked?
      modifies `life, dma
      ensures View() == Next(old(View()), CloseWork)
    {
      dma.armed := false;
      life := WorkGone;
    }

    method CloseSyncTx()
      requires Valid() && life.WorkGone?
      modifies `life, dma.tx, dma.rx
      ensures View() == Next(old(View()), CloseTx)
    {
      dma.Synchronize(true, false);
      life := TxGone;
    }

    method CloseSyncRx()
      requires Valid() && life.TxGone?
      modifies `life, dma.tx, dma.rx
      ensures View() == Next(old(View()), CloseRx)
    {
      dma.Synchronize(false, true);
      life := Closed;
    }
  }
}
