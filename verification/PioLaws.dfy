// What programmed transmit and receive mean, stated without saying how they go about it:
// how many bytes a number of free slots takes, and how many bytes a budget reads.

module PioLaws {
  import opened Common
  import opened DmaModel

  /** Slots that a pending XON/XOFF byte needs. */
  function Urgent(p: Port): nat {
    if p.xchar.Some? then 1 else 0
  }

  /** Queued bytes that may be sent now. */
  function Ready(p: Port): nat {
    if p.stopped then 0 else |p.queue|
  }

  /** How many queued bytes `room` free slots take. */
  function Fitting(p: Port, room: nat): nat {
    if room <= Urgent(p) then 0 else Min(room - Urgent(p), Ready(p))
  }

  /**
   * A fill of `room` free slots: the XON/XOFF byte takes the first one, the head of the queue
   * the others.
   */
  ghost predicate TakesHead(p: Port, room: nat, p': Port, sent: seq<Byte>) {
    && |sent| == Fitting(p, room) && sent == p.queue[..|sent|] && p'.queue == p.queue[|sent|..]
    && p'.xchar == (if room > 0 then None else p.xchar) && p'.stopped == p.stopped
  }

  /** And nothing else changes. */
  ghost predicate Fills(p: Port, room: nat, p': Port, sent: seq<Byte>) {
    TakesHead(p, room, p', sent) && p'.tty == p.tty && p'.log == p.log
  }

  /** A slot is left over. */
  predicate SlotLeft(p: Port, room: nat) {
    room > Urgent(p) + Ready(p)
  }

  lemma FillFills(p: Port, room: nat)
    ensures var f := Fill(p, room); Fills(p, room, f.port, f.sent) && (f.exhausted <==> SlotLeft(p, room))
  {
  }

  lemma FillUnique(p: Port, room: nat, p': Port, sent: seq<Byte>)
    requires Fills(p, room, p', sent)
    ensures Fill(p, room) == Filled(p', sent, SlotLeft(p, room))
  {
    FillFills(p, room);
  }

  /** A read with `budget`: the TTY gets all that the FIFO holds, oldest first, and at most `budget` bytes. */
  ghost predicate Drains(tty: seq<Byte>, fifo: seq<Byte>, budget: nat, tty': seq<Byte>, fifo': seq<Byte>) {
    var n := if budget <= |fifo| then budget else |fifo|;
    tty' == tty + fifo[..n] && fifo' == fifo[n..]
  }

  /** What such a read costs: one for each byte, and one for a break that carries no data. */
  ghost predicate Costs(fifo: seq<Byte>, fifo': seq<Byte>, budget: nat, marker: bool, left: nat, received: bool) {
    && (received <==> budget > 0 && (fifo != [] || marker))
    && left + (if marker && received && fifo == [] then 1 else |fifo| - |fifo'|) == budget
  }
}
