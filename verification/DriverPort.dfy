// rust/kernel/serial.rs, LockedPort: the serial-core port while its lock is held.

module DriverPort {
  import opened Common
  import Model = DmaModel

  class LockedPort {
    var queue: seq<Byte>
    var stopped: bool
    var xchar: Option<Byte>
    var tty: seq<Byte>
    ghost var log: Model.RxLog

    ghost function View(): Model.Port
      reads this
    {
      Model.Port(queue, stopped, xchar, tty, log)
    }

    constructor ()
      ensures View() == Model.Port([], false, None, [], Model.NO_RX)
    {
      queue, stopped, xchar, tty := [], false, None, [];
      log := Model.NO_RX;
    }

    /** Copies the head of the queue without consuming it. */
    method PeekTx(room: nat) returns (bytes: seq<Byte>)
      ensures bytes == queue[..Min(room, |queue|)]
    {
      bytes := queue[..Min(room, |queue|)];
    }

    method AdvanceTx(count: nat)
      modifies this
      ensures View() == old(View()).(queue := old(queue)[Min(count, |old(queue)|)..])
    {
      queue := queue[Min(count, |queue|)..];
    }

    /** What an ended DMA transfer left in its buffer. */
    method ReceiveDma(bytes: seq<Byte>)
      modifies this
      ensures View() == Model.HandOver(old(View()), bytes)
    {
      log := log.(fate := log.fate + Model.Resolve(log.flight, Model.Delivered), flight := []);
      if bytes == [] {
        assert tty + [] == tty;
        return;
      }
      tty := tty + bytes;
    }

    /** Hands one byte of the hardware FIFO to the TTY. */
    method Receive(byte: Byte)
      modifies this
      ensures View() == Model.Deliver(old(View()), [byte])
    {
      tty := tty + [byte];
      log := log.(fate := log.fate + Model.Tag([byte], Model.Delivered));
    }

    /** Pops an XON/XOFF byte first, then an ordinary queued byte. */
    method NextTx() returns (byte: Option<Byte>)
      modifies this
      ensures byte ==
              if old(xchar).Some? then old(xchar)
              else if stopped || old(queue) == [] then None
              else Some(old(queue)[0])
      ensures View() == old(View()).(
                xchar := None,
                queue := if old(xchar).None? && byte.Some? then old(queue)[1..] else old(queue))
    {
      if xchar.Some? {
        byte := xchar;
        xchar := None;
        return;
      }
      if stopped || queue == [] {
        return None;
      }
      byte := Some(queue[0]);
      queue := queue[1..];
    }
  }
}
