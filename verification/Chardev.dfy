// linux/drivers/rust_chardev.rs: the byte FIFO behind one open file.

module CharFifo {
  import opened Common
  import opened RingIndices

  datatype Refusal = WouldBlock | Interrupted | Fault

  datatype Outcome = Moved(count: usize) | Refused(why: Refusal)

  /**
   * How a wait ends: with a signal, or after a wakeup by which time other threads
   * have left the FIFO holding `queue` with its oldest byte at index `head`.
   */
  datatype Wait = Signal | Wake(head: usize, queue: seq<Byte>)

  /** What the section of code after the waiting loop meets. */
  datatype Served = Served(refusal: Option<Refusal>, head: usize, queue: seq<Byte>)

  /** The waiting loop of a reader; a wait that never ends is one that a signal ends. */
  function AwaitBytes(waits: seq<Wait>, head: usize, queue: seq<Byte>, nonblocking: bool): Served
    decreases |waits|
  {
    if queue != [] then Served(None, head, queue)
    else if nonblocking then Served(Some(WouldBlock), head, queue)
    else if waits == [] || waits[0].Signal? then Served(Some(Interrupted), head, queue)
    else AwaitBytes(waits[1..], waits[0].head, waits[0].queue, nonblocking)
  }

  /** The waiting loop of a writer. */
  function AwaitSpace(waits: seq<Wait>, head: usize, queue: seq<Byte>, nonblocking: bool, capacity: nat): Served
    decreases |waits|
  {
    if |queue| != capacity then Served(None, head, queue)
    else if nonblocking then Served(Some(WouldBlock), head, queue)
    else if waits == [] || waits[0].Signal? then Served(Some(Interrupted), head, queue)
    else AwaitSpace(waits[1..], waits[0].head, waits[0].queue, nonblocking, capacity)
  }

  /** The first `k` wakeups came for nothing: they left the FIFO empty (or full, for a writer). */
  ghost predicate InVain(waits: seq<Wait>, k: nat, useless: nat) {
    k <= |waits| && forall i :: 0 <= i < k ==> waits[i].Wake? && |waits[i].queue| == useless
  }

  /** The sleep ends here: no wakeup is left, a signal came, or the wakeup brought what was waited for. */
  ghost predicate EndsAt(waits: seq<Wait>, k: nat, useless: nat) {
    InVain(waits, k, useless) && (k == |waits| || waits[k].Signal? || |waits[k].queue| != useless)
  }

  /** What a sleep that began on `before` ends with, `k` useless wakeups later. */
  ghost predicate SleepEnds(waits: seq<Wait>, k: nat, useless: nat, before: seq<Byte>,
                            refusal: Option<Refusal>, left: seq<Wait>, head: usize, after: seq<Byte>) {
    && EndsAt(waits, k, useless)
    && if k < |waits| && waits[k].Wake? then
         refusal == None && left == waits[k + 1..] && head == waits[k].head && after == waits[k].queue
       else refusal == Some(Interrupted) && after == if k == 0 then before else waits[k - 1].queue
  }

  /** A read that found `q` with its oldest byte at `head`: what it hands out and leaves. */
  ghost predicate Takes(q: seq<Byte>, head: usize, capacity: usize, limit: usize, room: usize,
                        r: Outcome, taken: seq<Byte>, after: seq<Byte>) {
    && |taken| == Min(room as int, Min(limit as int, Min(|q|, capacity as int - head as int)))
    && taken == q[..|taken|] && after == q[|taken|..]
    && r == (if room == 0 then Refused(Fault) else Moved(|taken| as usize))
    && (room > 0 ==> |taken| > 0)
  }

  /** A write that found `q` with its oldest byte at `head`: what it takes and leaves. */
  ghost predicate Appends(q: seq<Byte>, head: usize, capacity: usize, offered: seq<Byte>, room: usize,
                          r: Outcome, after: seq<Byte>) {
    var free := Min(capacity as int - |q|, capacity as int - Slot(head as int, |q|, capacity as nat));
    if room == 0 then r == Refused(Fault) && after == q
    else
      && r.Moved? && 0 < r.count as int == Min(room as int, Min(|offered|, free))
      && after == q + offered[..r.count]
  }

  /** A read that slept: interrupted, or served by the wakeup after `k` useless ones. */
  ghost predicate ReadWakes(waits: seq<Wait>, k: nat, left: seq<Wait>, capacity: usize, limit: usize, room: usize,
                            r: Outcome, taken: seq<Byte>, after: seq<Byte>) {
    && EndsAt(waits, k, 0)
    && if k < |waits| && waits[k].Wake? then
         left == waits[k + 1..] && Takes(waits[k].queue, waits[k].head, capacity, limit, room, r, taken, after)
       else r == Refused(Interrupted) && taken == [] && after == []
  }

  /** A write that slept on the full FIFO `before`. */
  ghost predicate WriteWakes(waits: seq<Wait>, k: nat, left: seq<Wait>, capacity: usize, offered: seq<Byte>,
                             room: usize, before: seq<Byte>, r: Outcome, after: seq<Byte>) {
    && EndsAt(waits, k, capacity as nat)
    && if k < |waits| && waits[k].Wake? then
         left == waits[k + 1..] && Appends(waits[k].queue, waits[k].head, capacity, offered, room, r, after)
       else r == Refused(Interrupted) && after == if k == 0 then before else waits[k - 1].queue
  }

  /** The byte at index `i` of storage that holds `queue` from index `head` on, and `rest` elsewhere. */
  function Refilled(i: nat, head: nat, capacity: nat, queue: seq<Byte>, rest: Byte): Byte
    requires i < capacity && head < capacity
  {
    var k := if i >= head then i - head else i + capacity - head;
    if k < |queue| then queue[k] else rest
  }

  class Buffer {
    const data: array<Byte>
    const ring: Ring
    /** How the waits of the current call will end. */
    var waits: seq<Wait>

    ghost predicate Valid()
      reads this, ring
    {
      && ring.Valid()
      && data.Length == ring.capacity as nat
      && (forall i :: 0 <= i < |waits| && waits[i].Wake? ==>
            waits[i].head < ring.capacity && |waits[i].queue| <= ring.capacity as nat)
    }

    ghost function Contents(): (q: seq<Byte>)
      requires Valid()
      reads this, ring, data
      ensures |q| == ring.len as nat
    {
      QueueOf(data[..], ring.head as nat, ring.len as nat)
    }

    constructor (capacity: usize)
      requires capacity > 0
      ensures Valid() && fresh(data) && fresh(ring) && ring.capacity == capacity
      ensures Contents() == [] && waits == []
    {
      data := new Byte[capacity as nat](i => 0);
      ring := new Ring(capacity);
      waits := [];
    }

    /** Gives up the lock and sleeps; other threads may do anything to the FIFO meanwhile. */
    method WaitInterruptible() returns (signalled: bool)
      requires Valid()
      modifies `waits, ring`head, ring`len, data
      ensures Valid()
      ensures old(waits) == [] || old(waits)[0].Signal? ==>
                signalled && Contents() == old(Contents()) && ring.head == old(ring.head)
      ensures old(waits) != [] && old(waits)[0].Wake? ==>
                !signalled && Contents() == old(waits)[0].queue && ring.head == old(waits)[0].head
      ensures waits == if old(waits) == [] then [] else old(waits)[1..]
    {
      if waits == [] {
        return true;
      }
      var wait := waits[0];
      waits := waits[1..];
      if wait.Signal? {
        return true;
      }
      ring.head := wait.head;
      ring.len := |wait.queue| as usize;
      forall i | 0 <= i < data.Length {
        data[i] := Refilled(i, wait.head as nat, data.Length, wait.queue, data[i]);
      }
      assert Contents() == wait.queue;
      return false;
    }

    /** copy_to_iter: the user takes at most `room` bytes, fewer when a page faults. */
    method CopyToIter(range: Range, room: usize) returns (taken: seq<Byte>)
      requires range.Valid() && range.end as nat <= data.Length
      ensures |taken| == Least(range.Size(), room) as nat
      ensures taken == data[range.start..range.start as nat + |taken|]
    {
      taken := data[range.start..range.start + Least(range.Size(), room)];
    }

    /** copy_from_iter: of what the user offers, at most `room` bytes reach the range. */
    method CopyFromIter(range: Range, offered: seq<Byte>, room: usize) returns (copied: usize)
      requires range.Valid() && range.end as nat <= data.Length && range.Size() as nat <= |offered|
      modifies data
      ensures copied == Least(range.Size(), room)
      ensures forall i :: range.start as nat <= i < range.start as nat + copied as nat ==>
                data[i] == offered[i - range.start as nat]
      ensures forall i :: 0 <= i < data.Length && !(range.start as nat <= i < range.end as nat) ==>
                data[i] == old(data[i])
    {
      copied := Least(range.Size(), room);
      forall i | 0 <= i < copied as nat {
        data[range.start as nat + i] := offered[i];
      }
    }

    /** How many free places follow the newest byte before the end of the storage or the oldest byte. */
    ghost function FreeRun(len: nat, head: nat): int
      reads this
    {
      Min(ring.capacity as int - len, ring.capacity as int - Slot(head, len, ring.capacity as nat))
    }

    /** The rest of a read, under the lock: copies out the oldest bytes and removes exactly those that arrived. */
    method TakeOldest(limit: usize, room: usize) returns (taken: seq<Byte>)
      requires Valid() && !ring.IsEmpty() && limit > 0
      modifies ring`head, ring`len
      ensures Valid()
      ensures |taken| <= |old(Contents())| && taken == old(Contents())[..|taken|]
      ensures Contents() == old(Contents())[|taken|..]
      ensures |taken| == Min(room as int,
                             Min(limit as int, Min(|old(Contents())|, ring.capacity as int - old(ring.head) as int)))
    {
      var range := ring.Readable(limit);
      taken := CopyToIter(range, room);
      assert forall k: nat :: k < |taken| ==> taken[k] == data[ring.SlotOf(k)];
      assert taken == Contents()[..|taken|];
      if taken != [] {
        ConsumedQueue(data[..], ring.head as nat, ring.len as nat, |taken|);
        ring.Consume(|taken| as usize);
      }
    }

    /** The rest of a write, under the lock: copies in what the user delivers and appends exactly that. */
    method AppendOffered(offered: seq<Byte>, room: usize) returns (copied: usize)
      requires Valid() && !ring.IsFull() && 0 < |offered| <= USIZE_MAX as nat
      modifies ring`len, data
      ensures Valid()
      ensures copied == 0 <==> room == 0
      ensures copied as int == Min(room as int, Min(|offered|, FreeRun(|old(Contents())|, old(ring.head) as int)))
      ensures Contents() == old(Contents()) + offered[..copied]
    {
      ghost var before := data[..];
      var range := ring.Writable(|offered| as usize);
      copied := CopyFromIter(range, offered, room);
      AppendedQueue(before, data[..], ring.head as nat, ring.len as nat,
                    range.start as nat, range.Size() as nat, offered[..copied]);
      if copied != 0 {
        ring.Produce(copied);
      }
    }

    /** Sleeps until there is a byte to read. */
    method AwaitData(nonblocking: bool) returns (refusal: Option<Refusal>)
      requires Valid()
      modifies `waits, ring`head, ring`len, data
      ensures Valid()
      ensures var s := AwaitBytes(old(waits), old(ring.head), old(Contents()), nonblocking);
              refusal == s.refusal && Contents() == s.queue && (refusal == None ==> ring.head == s.head)
      ensures refusal == None ==> !ring.IsEmpty()
      ensures old(Contents()) != [] || nonblocking ==>
                && refusal == (if old(Contents()) != [] then None else Some(WouldBlock))
                && waits == old(waits) && Contents() == old(Contents()) && ring.head == old(ring.head)
      ensures old(Contents()) == [] && !nonblocking ==>
                exists k: nat :: SleepEnds(old(waits), k, 0, [], refusal, waits, ring.head, Contents())
    {
      ghost var goal, k := AwaitBytes(waits, ring.head, Contents(), nonblocking), 0;
      while ring.IsEmpty()
        invariant Valid()
        invariant AwaitBytes(waits, ring.head, Contents(), nonblocking) == goal
        invariant 0 <= k <= |old(waits)| && waits == old(waits)[k..] && (nonblocking ==> k == 0)
        invariant k == 0 ==> Contents() == old(Contents()) && ring.head == old(ring.head)
        invariant k > 0 ==>
                    && old(Contents()) == [] && InVain(old(waits), k - 1, 0) && old(waits)[k - 1].Wake?
                    && Contents() == old(waits)[k - 1].queue && ring.head == old(waits)[k - 1].head
        decreases |waits|
      {
        if nonblocking {
          return Some(WouldBlock);
        }
        assert InVain(old(waits), k, 0);
        var signalled := WaitInterruptible();
        if signalled {
          assert SleepEnds(old(waits), k, 0, [], Some(Interrupted), waits, ring.head, Contents());
          return Some(Interrupted);
        }
        k := k + 1;
      }
      assert k > 0 ==> SleepEnds(old(waits), k - 1, 0, [], None, waits, ring.head, Contents());
      return None;
    }

    /** Sleeps until there is room for a byte. */
    method AwaitRoom(nonblocking: bool) returns (refusal: Option<Refusal>)
      requires Valid()
      modifies `waits, ring`head, ring`len, data
      ensures Valid()
      ensures var s := AwaitSpace(old(waits), old(ring.head), old(Contents()), nonblocking, ring.capacity as nat);
              refusal == s.refusal && Contents() == s.queue && (refusal == None ==> ring.head == s.head)
      ensures refusal == None ==> !ring.IsFull()
      ensures |old(Contents())| != ring.capacity as nat || nonblocking ==>
                && refusal == (if |old(Contents())| != ring.capacity as nat then None else Some(WouldBlock))
                && waits == old(waits) && Contents() == old(Contents()) && ring.head == old(ring.head)
      ensures |old(Contents())| == ring.capacity as nat && !nonblocking ==>
                exists k: nat :: SleepEnds(old(waits), k, data.Length, old(Contents()),
                                           refusal, waits, ring.head, Contents())
    {
      ghost var goal := AwaitSpace(waits, ring.head, Contents(), nonblocking, ring.capacity as nat);
      ghost var k, full, before := 0, data.Length, Contents();
      while ring.IsFull()
        invariant Valid()
        invariant AwaitSpace(waits, ring.head, Contents(), nonblocking, ring.capacity as nat) == goal
        invariant 0 <= k <= |old(waits)| && waits == old(waits)[k..] && (nonblocking ==> k == 0)
        invariant k == 0 ==> Contents() == old(Contents()) && ring.head == old(ring.head)
        invariant k > 0 ==>
                    && |old(Contents())| == full && InVain(old(waits), k - 1, full) && old(waits)[k - 1].Wake?
                    && Contents() == old(waits)[k - 1].queue && ring.head == old(waits)[k - 1].head
        decreases |waits|
      {
        if nonblocking {
          return Some(WouldBlock);
        }
        assert InVain(old(waits), k, full);
        var signalled := WaitInterruptible();
        if signalled {
          assert SleepEnds(old(waits), k, full, before, Some(Interrupted), waits, ring.head, Contents());
          return Some(Interrupted);
        }
        k := k + 1;
      }
      assert k > 0 ==> SleepEnds(old(waits), k - 1, full, before, None, waits, ring.head, Contents());
      return None;
    }

    /**
     * A read of up to `limit` bytes by a user who can take `room` of them. It returns
     * the oldest bytes, at most up to the end of the storage, and removes exactly those;
     * any refusal leaves the FIFO alone, and a fault is always the user's. A non-empty FIFO
     * is read at once, an empty one never blocks a nonblocking reader, and a blocking one
     * sleeps up to the first signal or the first wakeup that brought a byte.
     */
    method ReadIter(limit: usize, room: usize, nonblocking: bool) returns (r: Outcome, taken: seq<Byte>)
      requires Valid()
      modifies `waits, ring`head, ring`len, data
      ensures Valid()
      ensures limit == 0 ==> r == Moved(0) && taken == [] && Contents() == old(Contents())
      ensures limit > 0 ==>
                var s := AwaitBytes(old(waits), old(ring.head), old(Contents()), nonblocking);
                if s.refusal.Some? then r == Refused(s.refusal.value) && taken == [] && Contents() == s.queue
                else Takes(s.queue, s.head, ring.capacity, limit, room, r, taken, Contents()) && s.queue != []
      ensures limit > 0 && old(Contents()) != [] ==>
                && waits == old(waits)
                && Takes(old(Contents()), old(ring.head), ring.capacity, limit, room, r, taken, Contents())
      ensures limit > 0 && old(Contents()) == [] && nonblocking ==>
                && r == Refused(WouldBlock) && taken == [] && waits == old(waits)
                && Contents() == [] && ring.head == old(ring.head)
      ensures limit > 0 && old(Contents()) == [] && !nonblocking ==>
                exists k: nat ::
                  ReadWakes(old(waits), k, waits, ring.capacity, limit, room, r, taken, Contents())
    {
      taken := [];
      if limit == 0 {
        return Moved(0), [];
      }
      var refusal := AwaitData(nonblocking);
      ghost var slept := old(Contents()) == [] && !nonblocking;
      ghost var k: nat :| slept ==> SleepEnds(old(waits), k, 0, [], refusal, waits, ring.head, Contents());
      if refusal.Some? {
        r := Refused(refusal.value);
      } else {
        ghost var found, head := Contents(), ring.head;
        taken := TakeOldest(limit, room);
        r := if taken == [] then Refused(Fault) else Moved(|taken| as usize);
        assert Takes(found, head, ring.capacity, limit, room, r, taken, Contents());
      }
      assert slept ==> ReadWakes(old(waits), k, waits, ring.capacity, limit, room, r, taken, Contents());
    }

    /**
     * A write of what the user offers, who can deliver `room` bytes of it. The first
     * bytes offered are appended, as many as fit before the end of the storage; any
     * refusal leaves the FIFO alone, and a fault is always the user's. A writer sleeps on
     * a full FIFO as a reader does on an empty one.
     */
    method WriteIter(offered: seq<Byte>, room: usize, nonblocking: bool) returns (r: Outcome)
      requires Valid() && |offered| <= USIZE_MAX as nat
      modifies `waits, ring`head, ring`len, data
      ensures Valid()
      ensures offered == [] ==> r == Moved(0) && Contents() == old(Contents())
      ensures offered != [] ==>
                var s := AwaitSpace(old(waits), old(ring.head), old(Contents()), nonblocking, ring.capacity as nat);
                if s.refusal.Some? then r == Refused(s.refusal.value) && Contents() == s.queue
                else
                  && Appends(s.queue, s.head, ring.capacity, offered, room, r, Contents())
                  && |Contents()| <= ring.capacity as int
      ensures offered != [] && |old(Contents())| != ring.capacity as nat ==>
                && waits == old(waits)
                && Appends(old(Contents()), old(ring.head), ring.capacity, offered, room, r, Contents())
      ensures offered != [] && |old(Contents())| == ring.capacity as nat && nonblocking ==>
                && r == Refused(WouldBlock) && waits == old(waits)
                && Contents() == old(Contents()) && ring.head == old(ring.head)
      ensures offered != [] && |old(Contents())| == ring.capacity as nat && !nonblocking ==>
                exists k: nat ::
                  WriteWakes(old(waits), k, waits, ring.capacity, offered, room, old(Contents()), r, Contents())
    {
      if offered == [] {
        return Moved(0);
      }
      var refusal := AwaitRoom(nonblocking);
      ghost var slept := |old(Contents())| == data.Length && !nonblocking;
      ghost var k: nat :| slept ==> SleepEnds(old(waits), k, data.Length, old(Contents()),
                                              refusal, waits, ring.head, Contents());
      if refusal.Some? {
        r := Refused(refusal.value);
      } else {
        ghost var found, head := Contents(), ring.head;
        var copied := AppendOffered(offered, room);
        r := if copied == 0 then Refused(Fault) else Moved(copied);
        assert Appends(found, head, ring.capacity, offered, room, r, Contents());
      }
      assert slept ==>
          WriteWakes(old(waits), k, waits, ring.capacity, offered, room, old(Contents()), r, Contents());
    }
  }
}
