// Each way of losing a received byte happens: reachable open ports that meet it, and for
// the starved dummy read a whole call of the interrupt handler that runs its budget down.

module LossWitnesses {
  import opened Common
  import opened DmaModel
  import opened UartModel
  import opened UartInvariant
  import opened UartTheorems
  import opened ReceiveTheorems
  import opened InterruptLoop

  /** A reachable open port can take the step. */
  ghost predicate Meets(w: World, s: Step) {
    Reachable(w) && w.life.Open? && Enabled(w, s) && !Hazard(w, s)
  }

  const CALM: Choice := Choice(Some(1), 1, Stable, false, false, None)

  /** A freshly opened port. */
  const FRESHLY_OPEN: World := Opened(Init(true, 1))

  lemma FreshlyOpenReachable()
    ensures Reachable(FRESHLY_OPEN)
  {
    InitReachable(true, 1);
    ReachStep(Init(true, 1), Startup);
  }

  // ----- the budget can run down to zero over a waiting byte -----

  /** Readings of the identification register: `n` times busy detect, then a receive timeout. */
  function TimeoutAfter(n: nat, o: Choice): (turns: seq<Turn>)
    ensures |turns| == n + 1
  {
    if n == 0 then [Turn(12, o)] else [Turn(7, o)] + TimeoutAfter(n - 1, o)
  }

  /** The `n` turns that serve busy detect, the last one with budget 1. */
  function BusyTurns(n: nat, o: Choice): (run: seq<Step>)
    ensures |run| == n && forall i :: 0 <= i < n ==> run[i] == Irq(7, n - i, o)
  {
    if n == 0 then [] else [Irq(7, n, o)] + BusyTurns(n - 1, o)
  }

  /** Receive interrupts can be raised, and a timeout gets past DMA to the FIFO. */
  predicate TimeoutReachesFifo(w: World, o: Choice) {
    && w.life.Open? && w.hw.ierRx && !w.hw.dlab
    && (!w.dma.available || w.dma.st.rx == Idle
        || (w.dma.st.rx == Stopping && w.dma.st.rxCpuSafe)
        || (w.dma.st.rx == Running && o.pause.Stable?))
  }

  lemma {:induction false} TimeoutTrace(w: World, n: nat, o: Choice)
    requires TimeoutReachesFifo(w, o)
    ensures Trace(w, TimeoutAfter(n, o), n + 1) == BusyTurns(n, o) + [Irq(12, 0, o)]
    decreases n
  {
    if n == 0 {
      var w' := Dispatch(w, 12, 0, o);
      assert Trace(w', TimeoutAfter(0, o)[1..], 0) == [];
      assert Identified(w.hw, 12) == 12 && [Irq(12, 0, o)] + [] == [Irq(12, 0, o)];
    } else {
      assert Dispatch(w, 7, n, o) == w && TimeoutAfter(n, o)[1..] == TimeoutAfter(n - 1, o);
      TimeoutTrace(w, n - 1, o);
      assert Trace(w, TimeoutAfter(n, o), n + 1) == [Irq(7, n, o)] + (BusyTurns(n - 1, o) + [Irq(12, 0, o)]);
    }
  }

  lemma {:induction false} BusyChangesNothing(w: World, n: nat, o: Choice)
    requires w.life.Open?
    ensures Legal(w, BusyTurns(n, o)) && Exec(w, BusyTurns(n, o)) == w
    decreases n
  {
    if n > 0 {
      assert Next(w, Irq(7, n, o)) == w && BusyTurns(n, o)[1..] == BusyTurns(n - 1, o);
      BusyChangesNothing(w, n - 1, o);
    }
  }

  /** A whole call of the handler: each of `n` + 1 turns costs one, and the last takes a waiting byte unseen. */
  ghost predicate RunsDown(w: World, run: seq<Step>, n: nat) {
    && |run| == n + 1 && IrqRun(w, run) && IrqRun(w, run[..n])
    && (forall i :: 0 <= i <= n ==> run[i].budget == n - i)
    && Starved(Exec(w, run[..n]), run[n])
  }

  lemma BusyThenTimeout(w: World, o: Choice, n: nat)
    requires TimeoutReachesFifo(w, o) && w.hw.fifo != [] && IrqRun(w, BusyTurns(n, o) + [Irq(12, 0, o)])
    ensures RunsDown(w, BusyTurns(n, o) + [Irq(12, 0, o)], n)
  {
    var run := BusyTurns(n, o) + [Irq(12, 0, o)];
    assert run[..n] == BusyTurns(n, o);
    BusyChangesNothing(w, n, o);
  }

  /**
   * Wherever a byte waits and a timeout gets past DMA, there are register readings with which
   * one call of the handler spends any budget turn by turn, down to 0, and then takes the
   * byte unseen.
   */
  lemma BudgetStarves(w: World, o: Choice, n: nat)
    requires TimeoutReachesFifo(w, o) && w.hw.fifo != []
    ensures RunsDown(w, Trace(w, TimeoutAfter(n, o), n + 1), n)
  {
    TimeoutTrace(w, n, o);
    TraceIsRun(w, TimeoutAfter(n, o), n + 1);
    BusyThenTimeout(w, o, n);
  }

  // ----- one witness for each cause -----

  lemma ByteWaits(w: World, b: Byte)
    requires Reachable(w)
    ensures Reachable(Arrived(w, b)) && Arrived(w, b).hw.fifo == w.hw.fifo + [b]
  {
    ReachStep(w, Arrive(b));
  }

  /** The handler, called with its whole budget at a reachable port, can run it down and starve a byte. */
  ghost predicate HandlerStarves(w: World, turns: seq<Turn>, n: nat) {
    && Reachable(w) && w.life.Open? && n + 1 == IRQ_BUDGET <= |turns|
    && RunsDown(w, Trace(w, turns, n + 1), n)
  }

  lemma StarvedHappens(n: nat)
    requires n + 1 == IRQ_BUDGET
    ensures exists w, turns :: HandlerStarves(w, turns, n)
  {
    FreshlyOpenReachable();
    ByteWaits(FRESHLY_OPEN, 7);
    var w := Arrived(FRESHLY_OPEN, 7);
    BudgetStarves(w, CALM, n);
    assert HandlerStarves(w, TimeoutAfter(n, CALM), n);
  }

  lemma LateHappens()
    ensures exists w, s :: Meets(w, s) && Late(w, s)
  {
    FreshlyOpenReachable();
    var s := Irq(12, 255, CALM.(late := Some(7)));
    assert Meets(FRESHLY_OPEN, s) && Late(FRESHLY_OPEN, s);
  }

  /** The port inside apply_termios, where configure writes LCR. */
  lemma Configuring() returns (w: World)
    ensures Reachable(w) && w.life.Open? && w.cfg.Quiesced? && w.hw.fifo == [] && !w.hw.dlab
  {
    FreshlyOpenReachable();
    var c := Change(2, Some(1));
    ReachStep(FRESHLY_OPEN, CfgBegin(c, CALM));
    var w1 := ConfigureBegun(FRESHLY_OPEN, c, CALM);
    ReachStep(w1, CfgDrained);
    var w2 := w1.(cfg := Drained(c));
    ReachStep(w2, CfgCancel);
    var w3 := w2.(dma := w2.dma.(armed := false), cfg := Cancelled(c));
    ReachStep(w3, CfgSyncTx);
    var w4 := w3.(dma := Synchronized(w3.dma, true, false), cfg := HalfSynced(c));
    ReachStep(w4, CfgSyncRx);
    w := w4.(dma := Synchronized(w4.dma, false, true), cfg := Quiesced(c));
  }

  lemma DiscardHappens()
    ensures exists w, s :: Meets(w, s) && w.cfg.Quiesced? && Discards(w, s) > 0
  {
    var w := Configuring();
    ByteWaits(w, 7);
    assert Meets(Arrived(w, 7), FifoReset) && Discards(Arrived(w, 7), FifoReset) > 0;
  }

  lemma SkipHappens()
    ensures exists w, s :: Meets(w, s) && w.cfg.Quiesced? && Skips(w, s)
  {
    var w := Configuring();
    ReachStep(w, FifoReset);
    var w1 := FifoCleared(w);
    ByteWaits(w1, 7);
    assert Meets(Arrived(w1, 7), RbrRead) && Skips(Arrived(w1, 7), RbrRead);
  }

  lemma FailedPauseHappens()
    ensures exists w, s :: Meets(w, s) && FailedPause(w, s)
  {
    FreshlyOpenReachable();
    var w0 := FRESHLY_OPEN;
    ReachStep(w0, Irq(4, 255, CALM));
    var w1 := w0.(dma := RxStart(w0.dma, Some(1)).0);
    assert Dispatch(w0, 4, 255, CALM) == w1;
    ByteWaits(w1, 7);
    var w2 := Arrived(w1, 7);
    ReachStep(w2, RxMove);
    var w3 := RxMoved(w2);
    var s := Irq(12, 255, CALM.(pause := Refused));
    assert Meets(w3, s) && FailedPause(w3, s);
  }
}
