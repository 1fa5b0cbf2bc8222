// rust/kernel/serial/dma/state.rs: cancellation and completion bookkeeping.

module DriverState {
  import opened Common
  import Model = DmaModel

  class State {
    var active: bool
    var configuring: bool
    var receive: bool
    var tx: Model.Phase
    var rx: Model.Phase
    var txCookie: int
    var rxCookie: int
    var txLen: nat
    var rxCpuSafe: bool
    var rxFailed: bool
    var txFailed: bool

    ghost function View(): Model.State
      reads this
    {
      Model.State(active, configuring, receive, tx, rx, txCookie, rxCookie, txLen, rxCpuSafe, rxFailed, txFailed)
    }

    constructor ()
      ensures View() == Model.FRESH
    {
      active, configuring, receive := false, false, false;
      tx, rx := Model.Idle, Model.Idle;
      txCookie, rxCookie, txLen := 0, 0, 0;
      rxCpuSafe, rxFailed, txFailed := true, false, false;
    }

    /** Overwrites the record with a fresh, active one. */
    method Reset()
      modifies this
      ensures View() == Model.FRESH.(active := true, receive := true)
    {
      active, configuring, receive := true, false, true;
      tx, rx := Model.Idle, Model.Idle;
      txCookie, rxCookie, txLen := 0, 0, 0;
      rxCpuSafe, rxFailed, txFailed := true, false, false;
    }

    /** The number of completed bytes, once per block; a late completion yields nothing. */
    method CompleteTx() returns (count: Option<nat>)
      modifies this
      ensures (View(), count) == Model.CompleteTx(old(View()))
    {
      if !active || tx != Model.Running {
        return None;
      }
      count := Some(txLen);
      txLen := 0;
      tx := Model.Idle;
    }

    method CancelTx() returns (cancelled: bool)
      modifies this
      ensures (View(), cancelled) == Model.CancelTx(old(View()))
    {
      if !active || tx == Model.Idle {
        return false;
      }
      txLen := 0;
      tx := Model.Stopping;
      cancelled := true;
    }

    method CompleteRx() returns (completed: bool)
      modifies this
      ensures (View(), completed) == Model.CompleteRx(old(View()))
    {
      if !active || rx != Model.Running {
        return false;
      }
      rx := Model.Idle;
      rxCpuSafe := true;
      completed := true;
    }
  }
}
