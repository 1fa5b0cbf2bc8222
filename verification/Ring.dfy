// linux/drivers/rust_chardev/ring.rs: storage-independent bounded ring indices.

module RingIndices {
  import opened Common

  /** A half-open range of indices. */
  datatype Range = Range(start: usize, end: usize) {
    predicate Valid() {
      start <= end
    }

    function Size(): usize
      requires Valid()
    {
      end - start
    }
  }

  function Least(a: usize, b: usize): usize {
    if a <= b then a else b
  }

  /** Where the element `k` places behind the head lives. */
  function Slot(head: nat, k: nat, capacity: nat): nat {
    if head + k < capacity then head + k else head + k - capacity
  }

  /** Slots of different elements are different and inside the storage. */
  lemma SlotsDistinct(head: nat, i: nat, j: nat, capacity: nat)
    requires head < capacity && i < capacity && j < capacity
    ensures Slot(head, i, capacity) < capacity
    ensures Slot(head, i, capacity) == Slot(head, j, capacity) <==> i == j
  {
  }

  lemma Remainder(x: int, capacity: int)
    requires 0 <= x < capacity
    ensures x % capacity == x && capacity % capacity == 0
  {
  }

  class Ring {
    const capacity: usize
    var head: usize
    var len: usize

    ghost predicate Valid()
      reads this
    {
      capacity > 0 && head < capacity && len <= capacity
    }

    constructor (capacity: usize)
      requires capacity > 0
      ensures Valid() && this.capacity == capacity && head == 0 && len == 0
    {
      this.capacity := capacity;
      head, len := 0, 0;
    }

    ghost function SlotOf(k: nat): nat
      reads this
    {
      Slot(head as nat, k, capacity as nat)
    }

    predicate IsEmpty()
      reads this
    {
      len == 0
    }

    predicate IsFull()
      reads this
    {
      len == capacity
    }

    /** The longest run of the oldest elements, at most `limit` of them, that lie next to each other. */
    function Readable(limit: usize): (r: Range)
      requires Valid()
      reads this
      ensures r.Valid() && r.end <= capacity && r.Size() <= limit && r.Size() <= len
      ensures r.Size() == 0 <==> IsEmpty() || limit == 0
      ensures forall k: nat :: k < r.Size() as nat ==> SlotOf(k) == r.start as nat + k
      ensures r.Size() == limit || r.Size() == len || r.end == capacity
    {
      Range(head, head + Least(Least(len, capacity - head), limit))
    }

    /** The longest run of free slots behind the newest element, at most `limit` of them. */
    function Writable(limit: usize): (r: Range)
      requires Valid()
      reads this
      ensures r.Valid() && r.end <= capacity && r.Size() <= limit && r.Size() <= capacity - len
      ensures r.Size() == 0 <==> IsFull() || limit == 0
      ensures forall k: nat :: len as nat <= k < len as nat + r.Size() as nat ==>
                SlotOf(k) == r.start as nat + (k - len as nat)
      ensures r.Size() == limit || r.Size() == capacity - len || r.end == capacity
    {
      var tail := if len >= capacity - head then len - (capacity - head) else head + len;
      Range(tail, tail + Least(Least(capacity - len, capacity - tail), limit))
    }

    method Produce(count: usize)
      requires Valid() && count <= Writable(USIZE_MAX).Size()
      modifies `len
      ensures Valid() && len == old(len) + count
    {
      assert count <= capacity - len;
      len := len + count;
    }

    method Consume(count: usize)
      requires Valid() && count <= Readable(USIZE_MAX).Size()
      modifies `head, `len
      ensures Valid() && len == old(len) - count
      ensures head as nat == old(SlotOf(count as nat))
    {
      if head + count < capacity {
        Remainder((head + count) as int, capacity as int);
      } else {
        Remainder(0, capacity as int);
      }
      head := (head + count) % capacity;
      len := len - count;
    }
  }

  // ----- the queue that indices and storage represent -----

  /** The elements in order, oldest first. */
  function QueueOf(data: seq<Byte>, head: nat, len: nat): (q: seq<Byte>)
    requires head < |data| && len <= |data|
    ensures |q| == len
  {
    seq(len, k requires 0 <= k < len => data[Slot(head, k, |data|)])
  }

  /** Moving the head forward drops the oldest elements. */
  lemma ConsumedQueue(data: seq<Byte>, head: nat, len: nat, k: nat)
    requires head < |data| && k <= len <= |data| && head + k <= |data|
    ensures Slot(head, k, |data|) < |data|
    ensures QueueOf(data, Slot(head, k, |data|), len - k) == QueueOf(data, head, len)[k..]
  {
  }

  /** Filling free slots behind the newest element appends, and disturbs nothing. */
  lemma ProducedQueue(before: seq<Byte>, after: seq<Byte>, head: nat, len: nat, added: seq<Byte>)
    requires |before| == |after| && head < |before| && len + |added| <= |before|
    requires forall k :: 0 <= k < len ==> after[Slot(head, k, |before|)] == before[Slot(head, k, |before|)]
    requires forall k :: 0 <= k < |added| ==> after[Slot(head, len + k, |before|)] == added[k]
    ensures QueueOf(after, head, len + |added|) == QueueOf(before, head, len) + added
  {
  }

  /**
   * Copying into the start of the writable range `first..first + room`, whatever happens
   * to the rest of that range, appends what was copied to the queue.
   */
  lemma AppendedQueue(before: seq<Byte>, after: seq<Byte>, head: nat, len: nat, first: nat, room: nat, added: seq<Byte>)
    requires |before| == |after| && head < |before| && len + room <= |before| && |added| <= room
    requires forall k :: len <= k < len + room ==> Slot(head, k, |before|) == first + (k - len)
    requires forall i :: first <= i < first + |added| && i < |after| ==> after[i] == added[i - first]
    requires forall i :: 0 <= i < |before| && !(first <= i < first + room) ==> after[i] == before[i]
    ensures QueueOf(after, head, len + |added|) == QueueOf(before, head, len) + added
  {
    forall k | 0 <= k < len
      ensures after[Slot(head, k, |before|)] == before[Slot(head, k, |before|)]
    {
      var i := Slot(head, k, |before|);
      if first <= i < first + room {
        SlotsDistinct(head, k, len + (i - first), |before|);
      }
    }
    forall k | 0 <= k < |added|
      ensures after[Slot(head, len + k, |before|)] == added[k]
    {
      assert Slot(head, len + k, |before|) == first + k;
    }
    ProducedQueue(before, after, head, len, added);
  }
}
