// rust/kernel/serial/dma.rs: the DMA state machine. Each method is one section
// under the UART port lock (or one unlocked synchronization) and is proved to
// compute the function of the same name in DmaModel.

module DriverDma {
  import opened Common
  import opened DriverChannel
  import opened DriverPort
  import opened DriverState
  import Shape = UartInvariant
  import Model = DmaModel

  class StateMachine {
    const available: bool
    const state: State
    const tx: Channel
    const rx: Channel
    var armed: bool

    predicate Valid() {
      && tx != rx
      && !tx.receive && tx.capacity == Model.TX_SIZE
      && rx.receive && rx.capacity == Model.RX_SIZE
    }

    ghost function View(): Model.Dma
      reads this, state, tx, rx
    {
      Model.Dma(available, state.View(), tx.View(), rx.View(), armed)
    }

    constructor (available: bool)
      ensures Valid() && this.available == available
      ensures fresh(state) && fresh(tx) && fresh(rx)
      ensures View() == Model.Dma(available, Model.FRESH, Model.IDLE_CHANNEL, Model.IDLE_CHANNEL, false)
    {
      this.available := available;
      state := new State();
      tx := new Channel(false, Model.TX_SIZE);
      rx := new Channel(true, Model.RX_SIZE);
      armed := false;
    }

    method Activate()
      modifies state
      ensures View() == Model.Activate(old(View()))
    {
      state.Reset();
    }

    method Deactivate()
      modifies state
      ensures View() == Model.Deactivate(old(View()))
    {
      state.active := false;
      state.receive := false;
    }

    method Schedule()
      modifies this
      ensures View() == Model.Schedule(old(View()))
    {
      if state.active {
        armed := true;
      }
    }

    /** True means the DMA owns the transmit path for now. */
    method TxStart(port: LockedPort, answer: Option<int>) returns (owned: bool)
      requires Valid() && Shape.TxShape(View())
      modifies state, tx
      ensures (View(), owned) == Model.TxStart(old(View()), port.View(), answer)
    {
      if !available {
        return false;
      }
      if !state.active {
        return false;
      }
      if state.configuring {
        return true;
      }
      if state.tx != Model.Idle {
        return true;
      }
      if state.txFailed || port.xchar.Some? {
        return false;
      }
      if port.stopped || |port.queue| == 0 {
        return false;
      }
      var block := port.PeekTx(tx.capacity);
      tx.Store(block);
      var count := |block|;
      var r := tx.Submit(count, answer);
      match r
      case Some(cookie) =>
        state.txCookie := cookie;
        state.txLen := count;
        state.tx := Model.Running;
        tx.Issue();
        owned := true;
      case None =>
        state.txFailed := true;
        owned := false;
    }

    method TxComplete(port: LockedPort) returns (completed: bool)
      modifies state, port
      ensures (View(), port.View(), completed) == Model.TxComplete(old(View()), old(port.View()))
    {
      ghost var d, p := View(), port.View();
      var count := state.CompleteTx();
      assert View() == d.(st := Model.CompleteTx(d.st).0) && count == Model.CompleteTx(d.st).1;
      if count.None? {
        return false;
      }
      assert port.View() == p;
      port.AdvanceTx(count.value);
      assert port.View() == p.(queue := p.queue[Min(count.value, |p.queue|)..]);
      completed := true;
    }

    /** Serial core has already emptied its transmit queue. */
    method TxFlush(keep: bool)
      requires Valid()
      modifies this, state, tx
      ensures View() == Model.TxFlush(old(View()), keep)
    {
      if !available {
        return;
      }
      var cancelled := state.CancelTx();
      if !cancelled {
        return;
      }
      tx.StopAsync(keep);
      Schedule();
    }

    /** Not busy in an open session means that the channel can neither move a byte nor call back. */
    method TxBusy() returns (busy: bool)
      requires Valid() && Shape.TxShape(View())
      ensures state.active && !busy ==> Model.Quiet(View().tx)
      ensures busy <==> state.active && state.tx != Model.Idle
    {
      busy := state.active && state.tx != Model.Idle;
    }

    /** True means the DMA owns the receive FIFO. */
    method RxStart(answer: Option<int>) returns (owned: bool)
      requires Valid() && Shape.RxShape(View())
      modifies this, state, rx
      ensures (View(), owned) == Model.RxStart(old(View()), answer)
    {
      if !available {
        return false;
      }
      if !state.active || !state.receive {
        return false;
      }
      if state.rx == Model.Stopping {
        return !state.rxCpuSafe;
      }
      if state.rx == Model.Running {
        return true;
      }
      if state.configuring {
        return false;
      }
      if state.rxFailed {
        return false;
      }
      var r := rx.Submit(Model.RX_SIZE, answer);
      match r
      case Some(cookie) =>
        state.rx := Model.Running;
        state.rxCookie := cookie;
        state.rxCpuSafe := false;
        rx.Issue();
        Schedule();
        owned := true;
      case None =>
        state.rxFailed := true;
        owned := false;
    }

    /** Called from a callback, so a Running transfer has ended. */
    method RxComplete(port: LockedPort) returns (completed: bool)
      requires Valid() && (state.rx == Model.Running ==> !rx.live)
      modifies state, port
      ensures (View(), port.View(), completed) == Model.RxComplete(old(View()), old(port.View()))
    {
      if !available {
        return false;
      }
      var done := state.CompleteRx();
      if !done {
        return false;
      }
      var bytes := rx.Load();
      port.ReceiveDma(bytes);
      completed := true;
    }

    /** The pause-and-read half of rx_flush; a buffer that cannot be read is given up. */
    method RxTakePrefix(port: LockedPort, pause: Model.Pause)
      requires Valid() && !rx.paused
      requires rx.size == Model.RX_SIZE && |rx.buffer| == rx.done <= rx.size && rx.cookie == state.rxCookie
      modifies state, rx, port
      ensures state.View() == old(state.View()).(rxCpuSafe := pause.Stable? || old(state.rxCpuSafe),
                                                 rxFailed := !pause.Stable? || old(state.rxFailed))
      ensures rx.View() == old(rx.View()).(paused := !pause.Refused?)
      ensures port.View() == if pause.Stable? then Model.HandOver(old(port.View()), old(rx.buffer))
                             else Model.Lose(old(port.View()), old(rx.buffer))
    {
      var ok := rx.Pause(pause);
      if ok {
        var residue := rx.Status(state.rxCookie, pause);
        if residue <= Model.RX_SIZE {
          var count := Model.RX_SIZE - residue;
          var bytes := rx.Load();
          assert bytes[..count] == bytes;
          port.ReceiveDma(bytes[..count]);
          state.rxCpuSafe := true;
          return;
        }
      }
      state.rxFailed := true;
      port.log := Model.Lose(port.View(), rx.buffer).log;
    }

    /** Pauses reception and delivers its prefix; true permits PIO to drain the FIFO. */
    method RxFlush(port: LockedPort, schedule: bool, pause: Model.Pause, keep: bool) returns (safe: bool)
      requires Valid() && Shape.RxShape(View())
      modifies this, state, rx, port
      ensures (View(), port.View(), safe) ==
              Model.RxFlush(old(View()), old(port.View()), schedule, pause, keep)
    {
      if !available {
        return true;
      }
      if state.rx == Model.Idle {
        return true;
      }
      if state.rx == Model.Stopping {
        return state.rxCpuSafe;
      }
      state.rx := Model.Stopping;
      RxTakePrefix(port, pause);
      rx.StopAsync(keep);
      safe := state.rxCpuSafe;
      if schedule {
        Schedule();
      }
    }

    method StopReceive(port: LockedPort, pause: Model.Pause, keep: bool)
      requires Valid() && Shape.RxShape(View())
      modifies this, state, rx, port
      ensures var (d, p, _) := Model.StopReceive(old(View()), old(port.View()), pause, keep);
              View() == d && port.View() == p
    {
      state.receive := false;
      var _ := RxFlush(port, true, pause, keep);
    }

    method RxError(port: LockedPort, pause: Model.Pause, keep: bool) returns (safe: bool)
      requires Valid() && Shape.RxShape(View())
      modifies this, state, rx, port
      ensures (View(), port.View(), safe) == Model.RxError(old(View()), old(port.View()), pause, keep)
    {
      state.rxFailed := true;
      safe := RxFlush(port, true, pause, keep);
    }

    method WorkPrepare(port: LockedPort, pause: Model.Pause, keep: bool) returns (t: bool, r: bool)
      requires Valid() && Shape.RxShape(View())
      modifies this, state, rx, port
      ensures (View(), port.View(), t, r) == Model.WorkPrepare(old(View()), old(port.View()), pause, keep)
    {
      if !state.active {
        return false, false;
      }
      var _ := RxFlush(port, false, pause, keep);
      t := state.tx == Model.Stopping;
      r := state.rx == Model.Stopping;
    }

    /** Runs without the port lock. */
    method Synchronize(t: bool, r: bool)
      requires Valid()
      modifies tx, rx
      ensures View() == old(View()).(
                tx := if available && t then Model.StopSync(old(View()).tx) else old(View()).tx,
                rx := if available && r then Model.StopSync(old(View()).rx) else old(View()).rx)
    {
      if available {
        if t {
          tx.StopSync();
        }
        if r {
          rx.StopSync();
        }
      }
    }

    method WorkFinish(t: bool, r: bool) returns (resume: bool)
      modifies state
      ensures (View(), resume) == Model.WorkFinish(old(View()), t, r)
    {
      if t {
        state.tx := Model.Idle;
      }
      if r {
        state.rx := Model.Idle;
        state.rxCpuSafe := true;
      }
      resume := state.active && !state.configuring;
    }

    method ConfigureBegin(port: LockedPort, pause: Model.Pause, keep: bool)
      requires Valid() && Shape.RxShape(View())
      modifies this, state, rx, port
      ensures var (d, p, _) := Model.ConfigureBegin(old(View()), old(port.View()), pause, keep);
              View() == d && port.View() == p
    {
      state.configuring := true;
      var _ := RxFlush(port, true, pause, keep);
    }

    method TxRunning() returns (running: bool)
      ensures running == (state.tx == Model.Running)
    {
      running := state.tx == Model.Running;
    }

    method ConfigureEnd(synchronized: bool) returns (resume: bool)
      modifies state
      ensures (View(), resume) == Model.ConfigureEnd(old(View()), synchronized)
    {
      if synchronized {
        state.tx := Model.Idle;
        state.rx := Model.Idle;
        state.rxCpuSafe := true;
      }
      state.configuring := false;
      resume := state.active;
    }
  }
}
