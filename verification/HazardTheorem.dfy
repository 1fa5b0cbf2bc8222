// The excluded interleaving is excluded for a reason: after an output flush that
// re-arms the worker inside a termios change, some continuation hands the same
// byte to the controller twice. Together with the safety theorem this makes the
// condition exact.

module HazardTheorem {
  import opened Common
  import opened DmaModel
  import opened UartModel
  import opened UartInvariant
  import opened UartSteps
  import opened UartTheorems
  import opened ReceiveTheorems

  ghost predicate Faithful(w: World) {
    IsPrefix(w.out.sent, w.out.written)
  }

  /** Some hazard-free continuation ends in a state whose output is no prefix of the input. */
  ghost predicate Doomed(w: World) {
    exists run: seq<Step> :: Legal(w, run) && Tame(w, run) && !Faithful(Exec(w, run))
  }

  lemma DoomedBefore(w: World, s: Step)
    requires Enabled(w, s) && !Hazard(w, s) && Doomed(Next(w, s))
    ensures Doomed(w)
  {
    var run :| Legal(Next(w, s), run) && Tame(Next(w, s), run) && !Faithful(Exec(Next(w, s), run));
    assert ([s] + run)[1..] == run;
    assert Legal(w, [s] + run) && Tame(w, [s] + run) && !Faithful(Exec(w, [s] + run));
  }

  /** The environment's choices in the witness: submits succeed, one FIFO slot is free. */
  const WILLING: Choice := Choice(Some(1), 1, Stable, false, false, None)

  /** DMA can be used and two different bytes are queued for the first time or again. */
  ghost predicate Loaded(w: World, a: Byte, b: Byte, sent: seq<Byte>) {
    && w.dma.available && w.dma.st.active && !w.dma.st.txFailed && w.life.Open?
    && !w.port.stopped && w.port.queue == [a, b]
    && w.out.written == [a, b] && w.out.sent == sent && a != b
  }

  lemma SecondCopy(w: World, a: Byte, b: Byte)
    requires Loaded(w, a, b, [a])
    requires w.dma.tx.live && w.dma.tx.done == 0 && w.dma.tx.size == 2 && w.dma.tx.mem == [a, b]
    ensures Doomed(w)
  {
    var w' := Next(w, TxMove);
    assert w'.out.sent == [a, a];
    assert w'.out.written[..2][1] == b && w'.out.sent[1] == a;
    assert !Faithful(w');
    assert Legal(w', []) && Tame(w', []) && Exec(w', []) == w';
    DoomedBefore(w, TxMove);
  }

  lemma WorkerResubmits(w: World, a: Byte, b: Byte)
    requires Loaded(w, a, b, [a]) && w.port.xchar.None? && !w.dma.st.configuring
    requires w.worker.Synced? && w.worker.tx
    ensures Doomed(w)
  {
    var s := WorkFinish(WILLING);
    var (d, resume) := DmaModel.WorkFinish(w.dma, true, w.worker.rx);
    var w1 := w.(dma := d, worker := Parked);
    var w2 := if w.worker.rx then PioIn(w1, IRQ_BUDGET) else w1;
    assert resume && Next(w, s) == StartTxIn(w2, WILLING);
    assert w2.port.queue[..2] == [a, b];
    assert TxStart(w2.dma, w2.port, Some(1)).1;
    assert [a] + [] == [a];
    SecondCopy(Next(w, s), a, b);
    DoomedBefore(w, s);
  }

  lemma WorkerKillsTransfer(w: World, a: Byte, b: Byte)
    requires Loaded(w, a, b, []) && w.port.xchar.None? && !w.dma.st.configuring
    requires w.worker.Prepared? && w.worker.tx
    requires w.dma.tx.live && w.dma.tx.done == 0 && w.dma.tx.size == 2 && w.dma.tx.mem == [a, b]
    ensures Doomed(w)
  {
    var w1 := Next(w, TxMove);
    assert w1.out.sent == [a];
    var w2 := Next(w1, WorkSyncTx);
    var w3 := Next(w2, WorkSyncRx);
    WorkerResubmits(w3, a, b);
    DoomedBefore(w2, WorkSyncRx);
    DoomedBefore(w1, WorkSyncTx);
    DoomedBefore(w, TxMove);
  }

  lemma NewTransfer(w: World, a: Byte, b: Byte)
    requires Loaded(w, a, b, []) && w.port.xchar.None? && !w.dma.st.configuring
    requires w.worker.Prepared? && w.worker.tx && w.kicks > 0
    requires w.dma.st.tx == Idle
          || (w.dma.st.tx == Running && w.dma.tx.live && w.dma.tx.done == 0 && w.dma.tx.size == 2
              && w.dma.tx.mem == [a, b])
    ensures Doomed(w)
  {
    var w1 := w.(kicks := w.kicks - 1);
    assert Next(w, Kick(WILLING)) == StartTxIn(w1, WILLING);
    assert w1.port.queue[..2] == [a, b];
    assert TxStart(w1.dma, w1.port, Some(1)).1;
    assert [] + [] == w.out.sent;
    WorkerKillsTransfer(Next(w, Kick(WILLING)), a, b);
    DoomedBefore(w, Kick(WILLING));
  }

  lemma ChangeEnds(w: World, a: Byte, b: Byte)
    requires Loaded(w, a, b, []) && w.cfg.Applied? && w.kicks > 0
    requires w.worker.Prepared? && w.worker.tx
    ensures Doomed(w)
  {
    var s := CfgEnd(WILLING);
    var w1 := w.(dma := ConfigureEnd(w.dma, true).0, cfg := NoChange);
    assert Next(w, s) == StartTxIn(w1, WILLING);
    assert w1.port.queue[..2] == [a, b];
    assert w1.port.queue[..0] == [] && w1.port.queue[0..] == [a, b];
    NewTransfer(Next(w, s), a, b);
    DoomedBefore(w, s);
  }

  /** The port right after the hazardous flush: the worker is armed again. */
  ghost predicate Rearmed(w: World) {
    && w.dma.available && w.dma.st.active && !w.dma.st.txFailed && w.life.Open?
    && w.dma.st.tx == Stopping && w.dma.armed && w.worker.Parked?
    && w.port.queue == [] && w.out.written == [] && w.out.sent == []
  }

  lemma WorkerWakes(w: World)
    requires Rearmed(w) && w.cfg.Applied?
    ensures Doomed(w)
  {
    var w1 := Next(w, ResumeOutput);
    var w2 := Next(w1, WorkStart);
    RxFlushFrame(w2.dma, w2.port, false, Stable, false);
    var w3 := Next(w2, WorkPrepare(WILLING));
    assert w3.worker.tx;
    var w4 := Next(w3, Write([1, 2]));
    ChangeEnds(w4, 1, 2);
    DoomedBefore(w3, Write([1, 2]));
    DoomedBefore(w2, WorkPrepare(WILLING));
    DoomedBefore(w1, WorkStart);
    DoomedBefore(w, ResumeOutput);
  }

  lemma RearmedIsDoomed(w: World)
    requires Rearmed(w) && PastCancel(w.cfg)
    ensures Doomed(w)
    decreases if w.cfg.Cancelled? then 3 else if w.cfg.HalfSynced? then 2 else if w.cfg.Quiesced? then 1 else 0
  {
    if w.cfg.Applied? {
      WorkerWakes(w);
    } else {
      var s := if w.cfg.Cancelled? then CfgSyncTx else if w.cfg.HalfSynced? then CfgSyncRx else CfgApply(Accepted);
      RearmedIsDoomed(Next(w, s));
      DoomedBefore(w, s);
    }
  }

  /**
   * Exactly-once output survives an output flush, whatever happens next, exactly
   * when the flush does not find TX Stopping inside a quiescing termios change.
   */
  lemma FlushIsSafeIff(w: World, o: Choice)
    requires Reachable(w) && w.life.Open?
    ensures Doomed(Flushed(w, o)) <==> Hazard(w, FlushBuffer(o))
  {
    ReachableInv(w);
    var s, w' := FlushBuffer(o), Flushed(w, o);
    assert Next(w, s) == w';
    if Hazard(w, s) {
      FlushParts(w.dma, w.port, w.out, o.keep);
      assert Rearmed(w');
      RearmedIsDoomed(w');
    } else {
      ReachStep(w, s);
      forall run: seq<Step> | Legal(w', run) && Tame(w', run)
        ensures Faithful(Exec(w', run))
      {
        ReachableTrans(w', run);
        TransmitExactlyOnce(Exec(w', run));
      }
    }
  }

  lemma WaitingByteReachable() returns (w: World)
    ensures Reachable(w) && w == Written(Opened(Init(true, 1)), [5])
  {
    InitReachable(true, 1);
    ReachStep(Init(true, 1), Startup);
    var w1 := Opened(Init(true, 1));
    ReachStep(w1, Write([5]));
    w := Written(w1, [5]);
  }

  lemma RunningTransmitReachable() returns (w: World)
    ensures Reachable(w) && w.life.Open? && w.dma.available && w.dma.st.active && w.dma.st.tx == Running
    ensures w.cfg.NoChange? && w.worker.Parked?
  {
    var w0 := WaitingByteReachable();
    ReachStep(w0, Kick(WILLING));
    w := Kicked(w0, WILLING);
    assert w0.port.queue == [5];
  }

  lemma CancelledTransmitReachable() returns (w: World)
    ensures Reachable(w) && w.life.Open? && w.dma.st.tx == Stopping && w.cfg.NoChange? && w.worker.Parked?
  {
    var w0 := RunningTransmitReachable();
    ReachStep(w0, FlushBuffer(WILLING));
    w := Flushed(w0, WILLING);
  }

  /** The condition is not vacuous: a hazardous flush is reachable. */
  lemma HazardIsReachable(o: Choice)
    ensures exists w :: Reachable(w) && w.life.Open? && Hazard(w, FlushBuffer(o))
  {
    var w := CancelledTransmitReachable();
    var c := Change(2, Some(1));
    RxFlushFrame(w.dma.(st := w.dma.st.(configuring := true)), w.port, true, Stable, false);
    ReachStep(w, CfgBegin(c, WILLING));
    var w1 := ConfigureBegun(w, c, WILLING);
    ReachStep(w1, CfgDrained);
    var w2 := w1.(cfg := Drained(c));
    ReachStep(w2, CfgCancel);
    var w3 := w2.(dma := w2.dma.(armed := false), cfg := Cancelled(c));
    assert Reachable(w3) && w3.life.Open? && Hazard(w3, FlushBuffer(o));
  }
}
