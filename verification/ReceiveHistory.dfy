// The receive history by itself: what an honest account of the bytes that left the
// FIFO looks like, and that every way of extending it keeps it honest.

module ReceiveHistory {
  import opened Common
  import opened DmaModel

  function Bytes(f: seq<Fate>): seq<Byte> {
    seq(|f|, i requires 0 <= i < |f| => f[i].byte)
  }

  /** The bytes of a history that met one fate, in order. */
  function Pick(f: seq<Fate>, how: How): seq<Byte> {
    if f == [] then []
    else Pick(f[..|f| - 1], how) + (if f[|f| - 1].how == how then [f[|f| - 1].byte] else [])
  }

  /** The bytes of a history that reached the TTY. */
  function Kept(f: seq<Fate>): seq<Byte> {
    Pick(f, Delivered)
  }

  // ----- picking from longer histories -----

  lemma {:induction false} PickAppend(a: seq<Fate>, b: seq<Fate>, how: How)
    ensures Pick(a + b, how) == Pick(a, how) + Pick(b, how)
    decreases |b|
  {
    if b == [] {
      assert a + b == a;
    } else {
      var n := |b| - 1;
      PickAppend(a, b[..n], how);
      assert (a + b)[..|a + b| - 1] == a + b[..n];
    }
  }

  lemma {:induction false} PickTag(bytes: seq<Byte>, how: How, g: How)
    ensures Pick(Tag(bytes, how), g) == if g == how then bytes else []
    decreases |bytes|
  {
    if bytes != [] {
      var n := |bytes| - 1;
      PickTag(bytes[..n], how, g);
      assert Tag(bytes, how)[..n] == Tag(bytes[..n], how);
    }
  }

  /** An ended transfer: its buffered bytes change their fate, the wasted ones keep theirs. */
  lemma {:induction false} PickResolve(f: seq<Fate>, to: How, g: How)
    requires Pending(f) && (to == Delivered || to == Gap)
    ensures Pick(Resolve(f, to), g) == if g == to then Pick(f, Buffered) else if g == Buffered then [] else Pick(f, g)
    decreases |f|
  {
    if f != [] {
      var n := |f| - 1;
      PickResolve(f[..n], to, g);
      assert Resolve(f, to)[..n] == Resolve(f[..n], to);
    }
  }

  lemma {:induction false} PickNone(f: seq<Fate>, how: How)
    ensures Pick(f, how) == [] <==> forall i :: 0 <= i < |f| ==> f[i].how != how
    decreases |f|
  {
    if f != [] {
      PickNone(f[..|f| - 1], how);
    }
  }

  /** Every byte met exactly one fate. */
  lemma {:induction false} PickPartition(f: seq<Fate>)
    ensures |f| == |Pick(f, Delivered)| + |Pick(f, Gap)| + |Pick(f, Eaten)| + |Pick(f, Reset)| + |Pick(f, Buffered)|
    decreases |f|
  {
    if f != [] {
      PickPartition(f[..|f| - 1]);
    }
  }

  lemma {:induction false} PickAll(f: seq<Fate>, how: How)
    requires |Pick(f, how)| == |f|
    ensures Pick(f, how) == Bytes(f)
    decreases |f|
  {
    if f != [] {
      var n := |f| - 1;
      PickShort(f[..n], how);
      PickAll(f[..n], how);
      assert Bytes(f) == Bytes(f[..n]) + [f[n].byte];
    }
  }

  lemma {:induction false} PickShort(f: seq<Fate>, how: How)
    ensures |Pick(f, how)| <= |f|
    decreases |f|
  {
    if f != [] {
      PickShort(f[..|f| - 1], how);
    }
  }

  lemma BytesAppend(a: seq<Fate>, b: seq<Fate>)
    ensures Bytes(a + b) == Bytes(a) + Bytes(b)
  {
  }

  lemma BytesTag(bytes: seq<Byte>, how: How)
    ensures Bytes(Tag(bytes, how)) == bytes
  {
  }

  lemma BytesResolve(f: seq<Fate>, to: How)
    ensures Bytes(Resolve(f, to)) == Bytes(f)
  {
  }

  // ----- an honest account -----

  /** Entries of a running transfer. */
  ghost predicate Pending(f: seq<Fate>) {
    forall i :: 0 <= i < |f| ==> f[i].how != Delivered && f[i].how != Gap
  }

  /** Settled entries; what could not be read lies in one stretch, and nothing in it was delivered. */
  ghost predicate Settled(f: seq<Fate>, at: nat, span: nat) {
    && at + span <= |f|
    && (forall i :: 0 <= i < |f| ==> f[i].how != Buffered)
    && (forall i :: 0 <= i < |f| && f[i].how == Gap ==> at <= i < at + span)
    && (forall i :: at <= i < at + span ==> f[i].how != Delivered)
  }

  /** The counters count, and the entries are of the right kinds. */
  ghost predicate Honest(log: RxLog) {
    && Pending(log.flight)
    && Settled(log.fate, log.gapAt, log.gapSpan)
    && log.gapLen == |Pick(log.fate, Gap)|
    && log.eaten == |Pick(log.fate, Eaten)| + |Pick(log.flight, Eaten)|
    && log.reset == |Pick(log.fate, Reset)| + |Pick(log.flight, Reset)|
  }

  lemma DeliverHonest(log: RxLog, bytes: seq<Byte>)
    requires Honest(log)
    ensures var f := log.fate + Tag(bytes, Delivered);
            && Honest(log.(fate := f)) && Kept(f) == Kept(log.fate) + bytes && Bytes(f) == Bytes(log.fate) + bytes
  {
    TagPicks(log.fate, bytes, Delivered);
  }

  lemma TagPicks(f: seq<Fate>, bytes: seq<Byte>, how: How)
    ensures forall g :: Pick(f + Tag(bytes, how), g) == Pick(f, g) + (if g == how then bytes else [])
    ensures Bytes(f + Tag(bytes, how)) == Bytes(f) + bytes
  {
    forall g
      ensures Pick(f + Tag(bytes, how), g) == Pick(f, g) + (if g == how then bytes else [])
    {
      PickAppend(f, Tag(bytes, how), g);
      PickTag(bytes, how, g);
    }
    BytesAppend(f, Tag(bytes, how));
    BytesTag(bytes, how);
  }

  lemma ResolvePicks(f: seq<Fate>, flight: seq<Fate>, to: How)
    requires Pending(flight) && (to == Delivered || to == Gap)
    ensures forall g :: Pick(f + Resolve(flight, to), g) ==
              Pick(f, g) + (if g == to then Pick(flight, Buffered) else if g == Buffered then [] else Pick(flight, g))
    ensures Bytes(f + Resolve(flight, to)) == Bytes(f) + Bytes(flight)
  {
    forall g
      ensures Pick(f + Resolve(flight, to), g) ==
                Pick(f, g) + (if g == to then Pick(flight, Buffered) else if g == Buffered then [] else Pick(flight, g))
    {
      PickAppend(f, Resolve(flight, to), g);
      PickResolve(flight, to, g);
    }
    BytesAppend(f, Resolve(flight, to));
    BytesResolve(flight, to);
  }

  lemma HandOverHonest(log: RxLog)
    requires Honest(log)
    ensures var f := log.fate + Resolve(log.flight, Delivered);
            && Honest(log.(fate := f, flight := []))
            && Kept(f) == Kept(log.fate) + Pick(log.flight, Buffered)
            && Bytes(f) == Bytes(log.fate) + Bytes(log.flight)
  {
    ResolvePicks(log.fate, log.flight, Delivered);
    PickNone(log.flight, Gap);
  }

  /** The first transfer that cannot be read opens the only gap. */
  lemma LoseHonest(log: RxLog)
    requires Honest(log) && log.gapLen == 0
    ensures var f := log.fate + Resolve(log.flight, Gap);
            && Honest(log.(fate := f, flight := [], gapAt := |log.fate|, gapSpan := |log.flight|,
                           gapLen := |Pick(log.flight, Buffered)|))
            && Kept(f) == Kept(log.fate)
            && Bytes(f) == Bytes(log.fate) + Bytes(log.flight)
  {
    ResolvePicks(log.fate, log.flight, Gap);
    PickNone(log.fate, Gap);
    PickNone(log.flight, Delivered);
  }

  lemma WasteHonest(p: Port, running: bool, bytes: seq<Byte>, how: How)
    requires Honest(p.log) && (how == Eaten || how == Reset)
    ensures var p' := Waste(p, running, bytes, how);
            && Honest(p'.log) && p'.tty == p.tty && Kept(p'.log.fate) == Kept(p.log.fate)
            && Pick(p'.log.flight, Buffered) == Pick(p.log.flight, Buffered)
            && (running ==> Bytes(p'.log.flight) == Bytes(p.log.flight) + bytes && p'.log.fate == p.log.fate)
            && (!running ==> Bytes(p'.log.fate) == Bytes(p.log.fate) + bytes && p'.log.flight == p.log.flight)
  {
    TagPicks(p.log.fate, bytes, how);
    TagPicks(p.log.flight, bytes, how);
  }

  lemma LoadHonest(log: RxLog, b: Byte)
    requires Honest(log)
    ensures var f := log.flight + [Fate(b, Buffered)];
            && Honest(log.(flight := f))
            && Pick(f, Buffered) == Pick(log.flight, Buffered) + [b]
            && Bytes(f) == Bytes(log.flight) + [b]
  {
    TagPicks(log.flight, [b], Buffered);
    assert Tag([b], Buffered) == [Fate(b, Buffered)];
  }
}
