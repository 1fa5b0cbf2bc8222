// rust/kernel/serial.rs, Line::allocate and its drop: line numbers handed out
// through compare-and-swap loops on one shared 64-bit word, by any number of
// threads working on stale snapshots. A word is modelled as the set of its one bits.

module LineAllocator {
  import opened Common

  const MAX_LINES: nat := 64

  type Word = s: set<nat> | forall i :: i in s ==> i < MAX_LINES

  /** Position of the lowest zero bit at or above `i`; MAX_LINES when there is none. */
  function LowestZero(w: Word, i: nat): (r: nat)
    requires i <= MAX_LINES
    ensures i <= r <= MAX_LINES
    ensures forall j :: i <= j < r ==> j in w
    ensures r < MAX_LINES ==> r !in w
    decreases MAX_LINES - i
  {
    if i == MAX_LINES || i !in w then i else LowestZero(w, i + 1)
  }

  /** One owner of at most one line, between or inside calls. */
  datatype Owner =
    | NoLine
    | Allocating(seen: Word, since: nat)
    | Holding(index: nat)
    | Dropping(index: nat, seen: Word, since: nat)

  /** `changes` counts the successful swaps, `since` in a snapshot dates it. */
  datatype Lines = Lines(lines: nat, used: Word, changes: nat, owners: map<nat, Owner>)

  datatype Action = Load | AllocateTurn | DropLoad | DropTurn

  function Get(s: Lines, id: nat): Owner {
    if id in s.owners then s.owners[id] else NoLine
  }

  function Put(s: Lines, id: nat, o: Owner): Lines {
    s.(owners := s.owners[id := o])
  }

  predicate Enabled(s: Lines, id: nat, a: Action) {
    match a
    case Load => Get(s, id).NoLine?
    case AllocateTurn => Get(s, id).Allocating?
    case DropLoad => Get(s, id).Holding?
    case DropTurn => Get(s, id).Dropping?
  }

  /** Atomic compare-and-swap on the shared word. */
  function Swap(s: Lines, expected: Word, to: Word): (Lines, bool) {
    if s.used == expected then (s.(used := to, changes := s.changes + 1), true) else (s, false)
  }

  /** One turn of allocate's loop: give up, take a line, or look again. */
  function Allocate(s: Lines, id: nat, seen: Word): Lines {
    var index := LowestZero(seen, 0);
    if index >= s.lines || index >= MAX_LINES then Put(s, id, NoLine)
    else
      var (s', ok) := Swap(s, seen, seen + {index});
      Put(s', id, if ok then Holding(index) else Allocating(s.used, s.changes))
  }

  function Drop(s: Lines, id: nat, index: nat, seen: Word): Lines {
    var (s', ok) := Swap(s, seen, seen - {index});
    Put(s', id, if ok then NoLine else Dropping(index, s.used, s.changes))
  }

  function Next(s: Lines, id: nat, a: Action): Lines
    requires Enabled(s, id, a)
  {
    match a
    case Load => Put(s, id, Allocating(s.used, s.changes))
    case AllocateTurn => Allocate(s, id, Get(s, id).seen)
    case DropLoad => Put(s, id, Dropping(Get(s, id).index, s.used, s.changes))
    case DropTurn => Drop(s, id, Get(s, id).index, Get(s, id).seen)
  }

  predicate Owns(o: Owner, index: nat) {
    (o.Holding? || o.Dropping?) && o.index == index
  }

  function Snapshot(o: Owner): Option<(Word, nat)> {
    match o
    case Allocating(seen, since) => Some((seen, since))
    case Dropping(_, seen, since) => Some((seen, since))
    case _ => None
  }

  predicate Holds(s: Lines, id: nat, i: nat) {
    id in s.owners && Owns(s.owners[id], i)
  }

  /** The word is the set of live lines, all below the limit. */
  ghost predicate Covered(s: Lines) {
    && (forall i :: i in s.used ==> i < s.lines && exists id :: Holds(s, id, i))
    && (forall id, i :: Holds(s, id, i) ==> i in s.used)
  }

  ghost predicate Exclusive(s: Lines) {
    forall a, b, i :: Holds(s, a, i) && Holds(s, b, i) ==> a == b
  }

  /** An undisturbed snapshot is still accurate. */
  ghost predicate Accurate(s: Lines) {
    forall id :: id in s.owners && Snapshot(s.owners[id]).Some? ==>
      var (seen, since) := Snapshot(s.owners[id]).value;
      since <= s.changes && (since == s.changes ==> seen == s.used)
  }

  ghost predicate Inv(s: Lines) {
    s.lines <= MAX_LINES && Covered(s) && Exclusive(s) && Accurate(s)
  }

  function Init(lines: nat): Lines {
    Lines(lines, {}, 0, map[])
  }

  /** Owners other than `id` keep what they hold. */
  lemma HoldsAfterPut(s: Lines, id: nat, o: Owner, k: nat, i: nat)
    ensures Holds(Put(s, id, o), k, i) <==> if k == id then Owns(o, i) else Holds(s, k, i)
  {
  }

  lemma PutCovered(s: Lines, id: nat, o: Owner)
    requires Covered(s) && forall i :: Owns(o, i) <==> Owns(Get(s, id), i)
    ensures Covered(Put(s, id, o))
  {
    var s' := Put(s, id, o);
    forall k, i
      ensures Holds(s', k, i) <==> Holds(s, k, i)
    {
      HoldsAfterPut(s, id, o, k, i);
    }
    forall i | i in s'.used
      ensures i < s'.lines && exists k :: Holds(s', k, i)
    {
      var k :| Holds(s, k, i);
      assert Holds(s', k, i);
    }
  }

  lemma PutExclusive(s: Lines, id: nat, o: Owner)
    requires Exclusive(s) && forall i :: Owns(o, i) <==> Owns(Get(s, id), i)
    ensures Exclusive(Put(s, id, o))
  {
    forall k, i
      ensures Holds(Put(s, id, o), k, i) <==> Holds(s, k, i)
    {
      HoldsAfterPut(s, id, o, k, i);
    }
  }

  lemma PutKeeps(s: Lines, id: nat, o: Owner)
    requires Inv(s)
    requires forall i :: Owns(o, i) <==> Owns(Get(s, id), i)
    requires Snapshot(o).Some? ==> Snapshot(o).value == (s.used, s.changes)
    ensures Inv(Put(s, id, o))
  {
    PutCovered(s, id, o);
    PutExclusive(s, id, o);
  }

  /** The state after a successful swap by `id`. */
  function Swapped(s: Lines, id: nat, to: Word, o: Owner): Lines {
    Put(s.(used := to, changes := s.changes + 1), id, o)
  }

  lemma SwappedAccurate(s: Lines, id: nat, to: Word, o: Owner)
    requires Accurate(s) && Snapshot(o).None?
    ensures Accurate(Swapped(s, id, to, o))
  {
  }

  lemma TakeCovered(s: Lines, id: nat, index: nat)
    requires Covered(s) && s.lines <= MAX_LINES && index < s.lines && Get(s, id).Allocating?
    ensures Covered(Swapped(s, id, s.used + {index}, Holding(index)))
  {
    var s' := Swapped(s, id, s.used + {index}, Holding(index));
    forall k, i
      ensures Holds(s', k, i) <==> (k == id && i == index) || (k != id && Holds(s, k, i))
    {
      HoldsAfterPut(s.(used := s.used + {index}, changes := s.changes + 1), id, Holding(index), k, i);
    }
    forall i | i in s'.used
      ensures i < s'.lines && exists k :: Holds(s', k, i)
    {
      if i == index {
        assert Holds(s', id, i);
      } else {
        var k :| Holds(s, k, i);
        assert Holds(s', k, i);
      }
    }
  }

  lemma TakeExclusive(s: Lines, id: nat, index: nat)
    requires Exclusive(s) && Covered(s) && index < MAX_LINES && index !in s.used
    ensures Exclusive(Swapped(s, id, s.used + {index}, Holding(index)))
  {
    var s' := Swapped(s, id, s.used + {index}, Holding(index));
    forall k, i
      ensures Holds(s', k, i) <==> (k == id && i == index) || (k != id && Holds(s, k, i))
    {
      HoldsAfterPut(s.(used := s.used + {index}, changes := s.changes + 1), id, Holding(index), k, i);
    }
  }

  /** A successful swap in allocate takes exactly the lowest free line. */
  lemma TakeKeeps(s: Lines, id: nat, index: nat)
    requires Inv(s) && index < s.lines && index !in s.used && Get(s, id).Allocating?
    ensures Inv(Swapped(s, id, s.used + {index}, Holding(index)))
  {
    TakeCovered(s, id, index);
    TakeExclusive(s, id, index);
    SwappedAccurate(s, id, s.used + {index}, Holding(index));
  }

  lemma ReleaseHolds(s: Lines, id: nat, index: nat, k: nat, i: nat)
    ensures Holds(Swapped(s, id, s.used - {index}, NoLine), k, i) <==> k != id && Holds(s, k, i)
  {
    HoldsAfterPut(s.(used := s.used - {index}, changes := s.changes + 1), id, NoLine, k, i);
  }

  lemma ReleaseCovered(s: Lines, id: nat, index: nat)
    requires Covered(s) && Exclusive(s) && Owns(Get(s, id), index)
    ensures Covered(Swapped(s, id, s.used - {index}, NoLine))
  {
    var s' := Swapped(s, id, s.used - {index}, NoLine);
    assert Holds(s, id, index);
    forall i | i in s'.used
      ensures i < s'.lines && exists k :: Holds(s', k, i)
    {
      var k :| Holds(s, k, i);
      ReleaseHolds(s, id, index, k, i);
    }
    forall k, i | Holds(s', k, i)
      ensures i in s'.used
    {
      ReleaseHolds(s, id, index, k, i);
    }
  }

  lemma ReleaseKeeps(s: Lines, id: nat, index: nat)
    requires Inv(s) && Owns(Get(s, id), index)
    ensures Inv(Swapped(s, id, s.used - {index}, NoLine))
  {
    ReleaseCovered(s, id, index);
    SwappedAccurate(s, id, s.used - {index}, NoLine);
    forall k, i
      ensures Holds(Swapped(s, id, s.used - {index}, NoLine), k, i) <==> k != id && Holds(s, k, i)
    {
      ReleaseHolds(s, id, index, k, i);
    }
  }

  lemma StepKeeps(s: Lines, id: nat, a: Action)
    requires Inv(s) && Enabled(s, id, a)
    ensures Inv(Next(s, id, a))
  {
    var o := Get(s, id);
    match a
    case Load => PutKeeps(s, id, Allocating(s.used, s.changes));
    case DropLoad => PutKeeps(s, id, Dropping(o.index, s.used, s.changes));
    case AllocateTurn =>
      var index := LowestZero(o.seen, 0);
      if index >= s.lines || index >= MAX_LINES {
        PutKeeps(s, id, NoLine);
      } else if s.used == o.seen {
        TakeKeeps(s, id, index);
      } else {
        PutKeeps(s, id, Allocating(s.used, s.changes));
      }
    case DropTurn =>
      if s.used == o.seen {
        ReleaseKeeps(s, id, o.index);
      } else {
        PutKeeps(s, id, Dropping(o.index, s.used, s.changes));
      }
  }

  // ----- every interleaving -----

  predicate Legal(s: Lines, run: seq<(nat, Action)>)
    decreases |run|
  {
    run == [] || (Enabled(s, run[0].0, run[0].1) && Legal(Next(s, run[0].0, run[0].1), run[1..]))
  }

  function Exec(s: Lines, run: seq<(nat, Action)>): Lines
    requires Legal(s, run)
    decreases |run|
  {
    if run == [] then s else Exec(Next(s, run[0].0, run[0].1), run[1..])
  }

  lemma {:induction false} RunKeeps(s: Lines, run: seq<(nat, Action)>)
    requires Inv(s) && Legal(s, run)
    ensures Inv(Exec(s, run))
    decreases |run|
  {
    if run != [] {
      StepKeeps(s, run[0].0, run[0].1);
      RunKeeps(Next(s, run[0].0, run[0].1), run[1..]);
    }
  }

  /** After any interleaving the word is the set of live lines and no line is held twice. */
  lemma LinesAreExclusive(lines: nat, run: seq<(nat, Action)>, i: nat)
    requires lines <= 64 && Legal(Init(lines), run)
    ensures var s := Exec(Init(lines), run);
            && (i in s.used <==> exists id :: Holds(s, id, i))
            && (i in s.used ==> i < s.lines)
            && (forall a, b :: Holds(s, a, i) && Holds(s, b, i) ==> a == b)
  {
    RunKeeps(Init(lines), run);
  }

  /** What one turn does to the word: nothing, the lowest free bit, or the owner's own bit. */
  lemma TurnEffect(s: Lines, id: nat, a: Action)
    requires Inv(s) && Enabled(s, id, a)
    ensures var s' := Next(s, id, a);
            && (a.Load? || a.DropLoad? ==> s'.used == s.used)
            && (a.AllocateTurn? && Get(s', id).Holding? ==>
                  var i := Get(s', id).index;
                  i < s.lines && i !in s.used && s'.used == s.used + {i} && forall j :: 0 <= j < i ==> j in s.used)
            && (a.AllocateTurn? && Get(s', id).NoLine? ==>
                  s'.used == s.used && forall j :: 0 <= j < s.lines ==> j in Get(s, id).seen)
            && (a.DropTurn? && Get(s', id).NoLine? ==>
                  s'.used == s.used - {Get(s, id).index} && Get(s, id).index in s.used)
            && (forall other :: other != id ==> Get(s', other) == Get(s, other))
  {
    assert a.DropTurn? ==> Holds(s, id, Get(s, id).index);
  }

  /** A turn fails only because somebody else's swap succeeded since the snapshot. */
  lemma FailureMeansProgress(s: Lines, id: nat, a: Action)
    requires Inv(s) && Enabled(s, id, a) && (a.AllocateTurn? || a.DropTurn?)
    requires Snapshot(Get(Next(s, id, a), id)).Some?
    ensures Snapshot(Get(s, id)).value.1 < s.changes
  {
  }

  // ----- the shared word -----

  class AtomicWord {
    var used: Word

    constructor ()
      ensures used == {}
    {
      used := {};
    }

    method CmpXchg(expected: Word, to: Word) returns (ok: bool, current: Word)
      modifies this
      ensures ok == (old(used) == expected) && current == old(used)
      ensures used == if ok then to else old(used)
    {
      current := used;
      ok := used == expected;
      if ok {
        used := to;
      }
    }

    /** Scans for the lowest zero bit, as trailing_zeros of the complement does. */
    static method TrailingOnes(w: Word) returns (i: nat)
      ensures i == LowestZero(w, 0)
    {
      i := 0;
      while i < MAX_LINES && i in w
        invariant i <= MAX_LINES && LowestZero(w, 0) == LowestZero(w, i)
      {
        i := i + 1;
      }
    }

    /** One turn of allocate's loop on the snapshot `seen`. */
    method AllocateTurn(lines: nat, seen: Word, ghost s: Lines, ghost id: nat) returns (o: Owner)
      requires lines == s.lines && used == s.used
      modifies this
      ensures used == Allocate(s, id, seen).used
      ensures match Get(Allocate(s, id, seen), id)
              case Allocating(now, _) => o.Allocating? && o.seen == now
              case other => o == other
    {
      var index := TrailingOnes(seen);
      if index >= lines || index >= MAX_LINES {
        return NoLine;
      }
      var ok, current := CmpXchg(seen, seen + {index});
      o := if ok then Holding(index) else Allocating(current, 0);
    }

    method DropTurn(index: nat, seen: Word, ghost s: Lines, ghost id: nat) returns (o: Owner)
      requires used == s.used
      modifies this
      ensures used == Drop(s, id, index, seen).used
      ensures match Get(Drop(s, id, index, seen), id)
              case Dropping(i, now, _) => o.Dropping? && o.index == i && o.seen == now
              case other => o == other
    {
      var ok, current := CmpXchg(seen, seen - {index});
      o := if ok then NoLine else Dropping(index, current, 0);
    }
  }
}
