// linux/drivers/rust_chardev.rs: any number of threads reading, writing and polling
// one open file, with the mutex and the condition variable they share.

module CharDevice {
  import opened Common

  datatype Op = Read(limit: nat, nonblocking: bool) | Write(bytes: seq<Byte>, nonblocking: bool)

  /** Where a thread stands. */
  datatype Phase =
    | Idle
    /** About to take the mutex: on entry, or again after a wakeup. */
    | Wanting(op: Op, woken: bool)
    | Holding(op: Op)
    /** On the condition variable, without the mutex. */
    | Asleep(op: Op)
    /** Interrupted while waiting; it still has to take the mutex again before it returns. */
    | Leaving
    /** Moved bytes and released the mutex, but has not yet notified. */
    | Notifying
    /** A poll that is registered with the wait queue, before and after it looked at the FIFO. */
    | Registered(notified: bool)
    | Checked(notified: bool, readable: bool, writable: bool)
    | PollAsleep(wantsBytes: bool, wantsSpace: bool)

  datatype World = World(
    capacity: nat,
    queue: seq<Byte>,
    owner: Option<nat>,
    threads: seq<Phase>,
    /** Every byte accepted and every byte handed out, in lock order. */
    written: seq<Byte>,
    taken: seq<Byte>)

  datatype Step =
    | Call(t: nat, op: Op)
    | Acquire(t: nat)
    | Serve(t: nat, count: nat)
    | NotifyAll(t: nat)
    | Interrupt(t: nat)
    | Leave(t: nat)
    | StartPoll(t: nat)
    | Check(t: nat)
    | Conclude(t: nat, wantsBytes: bool, wantsSpace: bool)
    | EndPoll(t: nat)

  predicate Full(w: World) {
    |w.queue| == w.capacity
  }

  function Init(capacity: nat, threads: nat): World {
    World(capacity, [], None, seq(threads, _ => Idle), [], [])
  }

  predicate Enabled(w: World, s: Step) {
    && s.t < |w.threads|
    && var p := w.threads[s.t];
    match s
    case Call(_, _) => p.Idle?
    case Acquire(_) => p.Wanting? && w.owner == None
    case Serve(_, count) => p.Holding? && (match p.op
      case Read(limit, _) => count <= Min(limit, |w.queue|)
      case Write(bytes, _) => count <= Min(|bytes|, w.capacity - |w.queue|))
    case NotifyAll(_) => p.Notifying?
    case Interrupt(_) => p.Asleep? || (p.Wanting? && p.woken)
    case Leave(_) => p.Leaving? && w.owner == None
    case StartPoll(_) => p.Idle?
    case Check(_) => p.Registered? && w.owner == None
    case Conclude(_, _, _) => p.Checked?
    case EndPoll(_) => p.PollAsleep?
  }

  function Move(w: World, t: nat, p: Phase): World
    requires t < |w.threads|
  {
    w.(threads := w.threads[t := p])
  }

  /** notify_all: sleepers try again, and registered polls know that something changed. */
  function Woken(p: Phase): Phase {
    match p
    case Asleep(op) => Wanting(op, true)
    case Registered(_) => Registered(true)
    case Checked(_, readable, writable) => Checked(true, readable, writable)
    case PollAsleep(_, _) => Registered(false)
    case _ => p
  }

  function AllWoken(threads: seq<Phase>): (r: seq<Phase>)
    ensures |r| == |threads|
  {
    seq(|threads|, i requires 0 <= i < |threads| => Woken(threads[i]))
  }

  /** The section under the mutex: one look at the FIFO, then sleep, refuse, fault or move `count` bytes. */
  function Served(w: World, t: nat, count: nat): World
    requires Enabled(w, Serve(t, count))
  {
    var op := w.threads[t].op;
    var free := w.(owner := None);
    if (if op.Read? then w.queue == [] else Full(w)) then Move(free, t, if op.nonblocking then Idle else Asleep(op))
    else if count == 0 then Move(free, t, Idle)
    else match op
      case Read(_, _) =>
        Move(free.(queue := w.queue[count..], taken := w.taken + w.queue[..count]), t, Notifying)
      case Write(bytes, _) =>
        Move(free.(queue := w.queue + bytes[..count], written := w.written + bytes[..count]), t, Notifying)
  }

  function Next(w: World, s: Step): World
    requires Enabled(w, s)
  {
    match s
    case Call(t, op) =>
      if (if op.Read? then op.limit == 0 else op.bytes == []) then w else Move(w, t, Wanting(op, false))
    case Acquire(t) => Move(w.(owner := Some(t)), t, Holding(w.threads[t].op))
    case Serve(t, count) => Served(w, t, count)
    case NotifyAll(t) => w.(threads := AllWoken(w.threads)[t := Idle])
    case Interrupt(t) => Move(w, t, Leaving)
    case Leave(t) => Move(w, t, Idle)
    case StartPoll(t) => Move(w, t, Registered(false))
    case Check(t) => Move(w, t, Checked(w.threads[t].notified, w.queue != [], !Full(w)))
    case Conclude(t, wantsBytes, wantsSpace) =>
      var p := w.threads[t];
      if (wantsBytes && p.readable) || (wantsSpace && p.writable) then Move(w, t, Idle)
      else if p.notified then Move(w, t, Registered(false))
      else Move(w, t, PollAsleep(wantsBytes, wantsSpace))
    case EndPoll(t) => Move(w, t, Idle)
  }

  /** A thread that relies on a notification although what it waits for is already there. */
  predicate Overlooked(w: World, p: Phase) {
    match p
    case Asleep(op) => if op.Read? then w.queue != [] else !Full(w)
    case Checked(notified, readable, writable) => !notified && ((!readable && w.queue != []) || (!writable && !Full(w)))
    case PollAsleep(wantsBytes, wantsSpace) => (wantsBytes && w.queue != []) || (wantsSpace && !Full(w))
    case _ => false
  }

  predicate SomeoneNotifies(w: World) {
    exists n :: 0 <= n < |w.threads| && w.threads[n].Notifying?
  }

  ghost predicate NoLostWakeup(w: World) {
    forall t :: 0 <= t < |w.threads| && Overlooked(w, w.threads[t]) ==> SomeoneNotifies(w)
  }

  ghost predicate Conserved(w: World) {
    w.written == w.taken + w.queue && |w.queue| <= w.capacity
  }

  ghost predicate Excluded(w: World) {
    forall t :: 0 <= t < |w.threads| && w.threads[t].Holding? ==> w.owner == Some(t)
  }

  ghost predicate Inv(w: World) {
    NoLostWakeup(w) && Conserved(w) && Excluded(w)
  }

  // ----- what a turn under the mutex does -----

  /** There is nothing to do for the operation yet. */
  predicate Blocked(w: World, op: Op) {
    match op
    case Read(_, _) => |w.queue| == 0
    case Write(_, _) => |w.queue| == w.capacity
  }

  /**
   * A thread sleeps exactly when it is blocked and may block; it goes on to notify exactly
   * when it moved bytes, which are the oldest of the FIFO or the first of its own.
   */
  lemma ServedExactly(w: World, t: nat, count: nat)
    requires Enabled(w, Serve(t, count))
    ensures var v, op := Served(w, t, count), w.threads[t].op;
      && v.owner == None && v.capacity == w.capacity && |v.threads| == |w.threads|
      && (forall i :: 0 <= i < |w.threads| && i != t ==> v.threads[i] == w.threads[i])
      && (v.threads[t] == Asleep(op) <==> Blocked(w, op) && !op.nonblocking)
      && (v.threads[t] == Idle <==> if Blocked(w, op) then op.nonblocking else count == 0)
      && (v.threads[t] == Notifying <==> !Blocked(w, op) && count > 0)
      && (if v.threads[t] != Notifying then
            v.queue == w.queue && v.taken == w.taken && v.written == w.written
          else if op.Read? then
            v.taken + v.queue == w.taken + w.queue && |v.queue| + count == |w.queue| && v.written == w.written
          else
            v.queue == w.queue + op.bytes[..count] && v.written == w.written + op.bytes[..count]
            && v.taken == w.taken)
  {
    var op := w.threads[t].op;
    if op.Read? {
      assert w.taken + w.queue[..count] + w.queue[count..] == w.taken + w.queue;
    }
  }

  /** A notification wakes every sleeper, of either kind. */
  lemma NotifiedAll(w: World, t: nat, i: nat)
    requires Enabled(w, NotifyAll(t)) && i < |w.threads| && i != t
    ensures var p := Next(w, NotifyAll(t)).threads[i];
      match w.threads[i]
      case Asleep(op) => p == Wanting(op, true)
      case PollAsleep(_, _) => p == Registered(false)
      case _ => !p.Asleep? && !p.PollAsleep?
  {
  }

  // ----- every step keeps the invariant -----

  /** Moving one thread, with the FIFO as it is. */
  lemma MoveKeeps(w: World, t: nat, p: Phase)
    requires NoLostWakeup(w) && t < |w.threads| && !w.threads[t].Notifying?
    requires Overlooked(w, p) ==> SomeoneNotifies(w)
    ensures NoLostWakeup(Move(w, t, p))
  {
    var v := Move(w, t, p);
    if SomeoneNotifies(w) {
      var n :| 0 <= n < |w.threads| && w.threads[n].Notifying?;
      assert v.threads[n].Notifying?;
    }
    forall i | 0 <= i < |v.threads| && Overlooked(v, v.threads[i])
      ensures SomeoneNotifies(v)
    {
      if i != t {
        assert Overlooked(w, w.threads[i]);
      }
    }
  }

  lemma OwnerIrrelevant(w: World, owner: Option<nat>)
    requires NoLostWakeup(w)
    ensures NoLostWakeup(w.(owner := owner))
  {
  }

  /** After notify_all nobody relies on a notification for what is already there. */
  lemma NotifyKeeps(w: World, t: nat)
    requires t < |w.threads|
    ensures var after := AllWoken(w.threads)[t := Idle];
      forall i :: 0 <= i < |after| ==> !Overlooked(w, after[i])
  {
  }

  /** Every change of the FIFO leaves its author about to notify. */
  lemma ServeKeeps(w: World, t: nat, count: nat)
    requires Inv(w) && Enabled(w, Serve(t, count))
    ensures Inv(Served(w, t, count))
  {
    var v := Served(w, t, count);
    var op := w.threads[t].op;
    if v.queue == w.queue && !v.threads[t].Notifying? {
      OwnerIrrelevant(w, None);
      MoveKeeps(w.(owner := None), t, v.threads[t]);
    } else {
      assert v.threads[t].Notifying?;
      if op.Read? {
        assert w.taken + w.queue == (w.taken + w.queue[..count]) + w.queue[count..];
      } else {
        assert w.taken + w.queue + op.bytes[..count] == w.taken + (w.queue + op.bytes[..count]);
      }
    }
  }

  lemma StepKeeps(w: World, s: Step)
    requires Inv(w) && Enabled(w, s)
    ensures Inv(Next(w, s))
  {
    var v := Next(w, s);
    match s
    case Serve(t, count) => ServeKeeps(w, t, count);
    case NotifyAll(t) => NotifyKeeps(w, t);
    case Acquire(t) =>
      OwnerIrrelevant(w, Some(t));
      MoveKeeps(w.(owner := Some(t)), t, v.threads[t]);
    case Conclude(t, _, _) =>
      if Overlooked(w, v.threads[t]) {
        assert Overlooked(w, w.threads[t]);
      }
      MoveKeeps(w, t, v.threads[t]);
    case _ =>
      if v != w {
        MoveKeeps(w, s.t, v.threads[s.t]);
      }
  }

  predicate Legal(w: World, run: seq<Step>)
    decreases |run|
  {
    run == [] || (Enabled(w, run[0]) && Legal(Next(w, run[0]), run[1..]))
  }

  function Exec(w: World, run: seq<Step>): World
    requires Legal(w, run)
    decreases |run|
  {
    if run == [] then w else Exec(Next(w, run[0]), run[1..])
  }

  lemma {:induction false} RunKeeps(w: World, run: seq<Step>)
    requires Inv(w) && Legal(w, run)
    ensures Inv(Exec(w, run)) && Exec(w, run).capacity == w.capacity && |Exec(w, run).threads| == |w.threads|
    decreases |run|
  {
    if run != [] {
      StepKeeps(w, run[0]);
      RunKeeps(Next(w, run[0]), run[1..]);
    }
  }

  // ----- what every run guarantees -----

  /** Nothing is left but sleeping: no thread can take a step on its own. */
  predicate Quiet(w: World) {
    forall t :: 0 <= t < |w.threads| ==> var p := w.threads[t]; p.Idle? || p.Asleep? || p.PollAsleep?
  }

  /**
   * No wakeup is ever lost: a thread that sleeps, or is about to, although bytes or
   * space are there, has a notification coming. Once everything is quiet, readers sleep
   * only on an empty FIFO and writers only on a full one, so they never all wait for
   * each other; and the bytes read are a prefix of the bytes written.
   */
  lemma NoWakeupLost(capacity: nat, threads: nat, run: seq<Step>)
    requires capacity > 0 && Legal(Init(capacity, threads), run)
    ensures var w := Exec(Init(capacity, threads), run);
      && (forall t :: 0 <= t < |w.threads| && Overlooked(w, w.threads[t]) ==> SomeoneNotifies(w))
      && (Quiet(w) ==> forall t :: 0 <= t < |w.threads| ==> !Overlooked(w, w.threads[t]))
      && (Quiet(w) ==> forall r, v :: 0 <= r < |w.threads| && 0 <= v < |w.threads| ==>
            !(w.threads[r].Asleep? && w.threads[r].op.Read? && w.threads[v].Asleep? && w.threads[v].op.Write?))
      && IsPrefix(w.taken, w.written) && w.queue == w.written[|w.taken|..] && |w.queue| <= capacity
  {
    RunKeeps(Init(capacity, threads), run);
    var w := Exec(Init(capacity, threads), run);
    if Quiet(w) {
      forall t | 0 <= t < |w.threads|
        ensures !Overlooked(w, w.threads[t])
      {
      }
    }
  }

  /** The mutex excludes: never two threads in the section that looks at the FIFO. */
  lemma OneHolder(capacity: nat, threads: nat, run: seq<Step>, i: nat, j: nat)
    requires Legal(Init(capacity, threads), run)
    requires i < |Exec(Init(capacity, threads), run).threads| && Exec(Init(capacity, threads), run).threads[i].Holding?
    requires j < |Exec(Init(capacity, threads), run).threads| && Exec(Init(capacity, threads), run).threads[j].Holding?
    ensures i == j
  {
    RunKeeps(Init(capacity, threads), run);
  }

  // ----- why a poll registers before it looks -----

  /** The opposite order: look first, register afterwards. */
  function LookFirst(w: World, t: nat, readable: bool, writable: bool): World
    requires t < |w.threads|
  {
    Move(w, t, Checked(false, readable, writable))
  }

  /**
   * A poll that looks before it registers loses a wakeup exactly when something it
   * saw missing has arrived in between and no notification is still to come.
   */
  lemma LookingFirstLosesIff(w: World, t: nat, readable: bool, writable: bool)
    requires Inv(w) && t < |w.threads| && w.threads[t].Idle?
    ensures NoLostWakeup(LookFirst(w, t, readable, writable)) <==>
            SomeoneNotifies(w) || ((w.queue != [] ==> readable) && (!Full(w) ==> writable))
  {
    var v := LookFirst(w, t, readable, writable);
    assert SomeoneNotifies(v) <==> SomeoneNotifies(w) by {
      if SomeoneNotifies(w) {
        var n :| 0 <= n < |w.threads| && w.threads[n].Notifying?;
        assert v.threads[n].Notifying?;
      }
      if SomeoneNotifies(v) {
        var n :| 0 <= n < |v.threads| && v.threads[n].Notifying?;
        assert w.threads[n].Notifying?;
      }
    }
    if !SomeoneNotifies(w) {
      assert v.threads[t] == Checked(false, readable, writable);
      if (w.queue != [] ==> readable) && (!Full(w) ==> writable) {
        MoveKeeps(w, t, Checked(false, readable, writable));
      }
    }
  }
}
