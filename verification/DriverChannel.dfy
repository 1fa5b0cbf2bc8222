// rust/kernel/dmaengine.rs: one exclusive slave channel and its bounce buffer.
// The environment's part of each call (does the provider accept, does the pause
// succeed, does a dispatched callback survive) is a parameter; the ownership
// demands of the source's Safety comments are preconditions.

module DriverChannel {
  import opened Common
  import Model = DmaModel

  class Channel {
    const receive: bool
    const capacity: nat
    var live: bool
    var paused: bool
    var callback: bool
    var buffer: seq<Byte>
    var size: nat
    var done: nat
    var cookie: int

    ghost function View(): Model.Channel
      reads this
    {
      Model.Channel(live, paused, callback, buffer, size, done, cookie)
    }

    constructor (receive: bool, capacity: nat)
      ensures this.receive == receive && this.capacity == capacity
      ensures View() == Model.IDLE_CHANNEL
    {
      this.receive, this.capacity := receive, capacity;
      live, paused, callback := false, false, false;
      buffer, size, done, cookie := [], 0, 0, 0;
    }

    /** buffer_mut: the channel is idle, so the CPU owns the buffer. */
    method Store(bytes: seq<Byte>)
      requires Model.Quiet(View())
      modifies this
      ensures View() == old(View()).(mem := bytes)
    {
      buffer := bytes;
    }

    /** buffer: the transfer has completed or is paused. */
    method Load() returns (bytes: seq<Byte>)
      requires !live || paused
      ensures bytes == buffer
    {
      bytes := buffer;
    }

    /** `answer` is the provider's cookie, or None when it has no descriptor to give. */
    method Submit(len: nat, answer: Option<int>) returns (r: Option<int>)
      requires Model.Quiet(View())
      modifies this
      ensures r == if len == 0 || len > capacity then None else answer
      ensures View() ==
              if r.None? then old(View())
              else Model.Channel(false, false, false, if receive then [] else old(buffer), len, 0, r.value)
    {
      if len == 0 || len > capacity {
        return None;
      }
      if answer.Some? {
        paused, callback := false, false;
        size, done, cookie := len, 0, answer.value;
        if receive {
          buffer := [];
        }
      }
      r := answer;
    }

    method Issue()
      modifies this
      ensures View() == old(View()).(live := true)
    {
      live := true;
    }

    method Pause(answer: Model.Pause) returns (ok: bool)
      modifies this
      ensures ok == !answer.Refused?
      ensures View() == old(View()).(paused := old(paused) || ok)
    {
      ok := !answer.Refused?;
      paused := paused || ok;
    }

    /** Residue of the transfer that `cookie` names, as the provider reports it. */
    method Status(cookie: int, answer: Model.Pause) returns (residue: nat)
      requires cookie == this.cookie && done <= size
      ensures residue == if answer.Nonsense? then answer.residue else size - done
    {
      residue := if answer.Nonsense? then answer.residue else size - done;
    }

    method StopAsync(keep: bool)
      modifies this
      ensures View() == Model.StopAsync(old(View()), keep)
    {
      live, paused := false, false;
      callback := callback && keep;
    }

    method StopSync()
      modifies this
      ensures View() == Model.StopSync(old(View()))
    {
      live, paused, callback := false, false, false;
    }
  }
}
