// linux/drivers/rust_dw_uart.rs, interrupt: what one call of the handler does, turn by
// turn, and how it spends its budget.

module InterruptLoop {
  import opened Common
  import opened DmaModel
  import opened UartModel
  import opened UartInvariant
  import PioLaws
  import UartSteps

  /** One reading of the interrupt identification register and what goes with it. */
  datatype Turn = Turn(id: nat, o: Choice)

  /** A masked source reads as "no interrupt", and all are masked while DLAB is left set. */
  function Identified(h: Hw, pending: nat): nat {
    if (pending == 2 && (h.dlab || !h.ierTx)) || ((pending == 4 || pending == 12) && (h.dlab || !h.ierRx))
       || (pending == 6 && (h.dlab || !h.ierLsr))
    then 1 else pending
  }

  /** What `receive` leaves of its budget; a break without data costs as much as a byte. */
  function PioLeft(h: Hw, budget: nat, marker: bool): (left: nat)
    ensures left <= budget
  {
    var wanted := if h.fifo != [] then |h.fifo| else if marker then 1 else 0;
    budget - Min(budget, wanted)
  }

  lemma PioCosts(p: Port, h: Hw, budget: nat, marker: bool)
    ensures PioLaws.Costs(h.fifo, Pio(p, h, budget).1.fifo, budget, marker,
                          PioLeft(h, budget, marker), PioRead(h, budget, marker))
  {
  }

  /** The turn ends the loop: DMA owns the receive FIFO, or the source is unknown. */
  predicate Stops(w: World, id: nat, o: Choice) {
    if id == 4 then RxStart(w.dma, o.cookie).1
    else if id == 6 then !RxError(w.dma, w.port, o.pause, o.keep).2
    else if id == 12 then !RxFlush(w.dma, w.port, true, o.pause, o.keep).2
    else id != 2 && id != 7 && id != 0
  }

  /** The receive side after DMA was asked about the FIFO. */
  function Claimed(w: World, id: nat, o: Choice): World {
    if id == 4 then w.(dma := RxStart(w.dma, o.cookie).0)
    else if id == 6 then Moved(w, RxError(w.dma, w.port, o.pause, o.keep))
    else Moved(w, RxFlush(w.dma, w.port, true, o.pause, o.keep))
  }

  /** Programmed receive at the end of a turn. */
  function Tail(w: World, id: nat, budget: nat, o: Choice): World {
    if id == 12 then TimeoutPio(w, budget, o.marker, o.late) else PioIn(w, budget)
  }

  lemma ServedIs(w: World, id: nat, budget: nat, o: Choice)
    requires id == 4 || id == 6 || id == 12
    ensures var c := Claimed(w, id, o);
            Dispatch(w, id, budget, o) == (if Stops(w, id, o) then c else Tail(c, id, budget, o)) && c.hw == w.hw
  {
  }

  /** What a turn entered with `budget` leaves of it. */
  function Left(w: World, id: nat, budget: nat, o: Choice): (left: nat)
    ensures left <= budget
  {
    if (id == 4 || id == 6 || id == 12) && !Stops(w, id, o) then PioLeft(w.hw, budget, o.marker) else budget
  }

  /** The turns that one call takes, as steps of the port; each costs one and what it reads. */
  function Trace(w: World, turns: seq<Turn>, budget: nat): seq<Step>
    requires |turns| >= budget
    decreases budget
  {
    if budget == 0 then []
    else
      var id, o := Identified(w.hw, turns[0].id), turns[0].o;
      if id == 1 then []
      else
        [Irq(id, budget - 1, o)]
        + if Stops(w, id, o) then []
          else Trace(Dispatch(w, id, budget - 1, o), turns[1..], Left(w, id, budget - 1, o))
  }

  /** A run of interrupt steps only. */
  ghost predicate IrqRun(w: World, run: seq<Step>) {
    Legal(w, run) && forall s :: s in run ==> s.Irq?
  }

  lemma {:induction false} IrqRunKeeps(w: World, run: seq<Step>)
    requires Inv(w) && IrqRun(w, run)
    ensures Inv(Exec(w, run)) && Exec(w, run).life == w.life
    decreases |run|
  {
    if run != [] {
      assert run[0] in run;
      DispatchLife(w, run[0].id, run[0].budget, run[0].o);
      UartSteps.StepKeeps(w, run[0]);
      assert forall s :: s in run[1..] ==> s in run;
      IrqRunKeeps(Next(w, run[0]), run[1..]);
    }
  }

  lemma {:induction false} IrqRunSnoc(w: World, run: seq<Step>, s: Step)
    requires IrqRun(w, run) && Enabled(Exec(w, run), s) && s.Irq?
    ensures IrqRun(w, run + [s]) && Exec(w, run + [s]) == Next(Exec(w, run), s)
    decreases |run|
  {
    if run == [] {
      assert run + [s] == [s] && [s][1..] == [];
    } else {
      assert (run + [s])[1..] == run[1..] + [s];
      assert forall x :: x in run[1..] ==> x in run;
      IrqRunSnoc(Next(w, run[0]), run[1..], s);
    }
  }

  /** The budget falls by at least one a turn, and never below zero. */
  ghost predicate Spends(run: seq<Step>, budget: nat) {
    && (forall i :: 0 <= i < |run| ==> run[i].Irq? && run[i].budget + i < budget)
    && (forall i :: 0 < i < |run| ==> run[i].budget < run[i - 1].budget)
  }

  lemma DispatchLife(w: World, id: nat, budget: nat, o: Choice)
    ensures Dispatch(w, id, budget, o).life == w.life
  {
  }

  lemma {:induction false} TraceSpends(w: World, turns: seq<Turn>, budget: nat)
    requires |turns| >= budget
    ensures Spends(Trace(w, turns, budget), budget) && |Trace(w, turns, budget)| <= budget
    decreases budget
  {
    if budget > 0 {
      var id, o := Identified(w.hw, turns[0].id), turns[0].o;
      if id != 1 && !Stops(w, id, o) {
        TraceSpends(Dispatch(w, id, budget - 1, o), turns[1..], Left(w, id, budget - 1, o));
      }
    }
  }

  /** What the handler does is a run of the port's interrupt steps, each entered with less budget than the last. */
  lemma {:induction false} TraceIsRun(w: World, turns: seq<Turn>, budget: nat)
    requires |turns| >= budget && (w.life.Open? || w.life.Deactivated?)
    ensures IrqRun(w, Trace(w, turns, budget))
    decreases budget
  {
    if budget > 0 {
      var id, o := Identified(w.hw, turns[0].id), turns[0].o;
      if id != 1 {
        var s, w' := Irq(id, budget - 1, o), Dispatch(w, id, budget - 1, o);
        assert Enabled(w, s) && Next(w, s) == w';
        DispatchLife(w, id, budget - 1, o);
        if !Stops(w, id, o) {
          TraceIsRun(w', turns[1..], Left(w, id, budget - 1, o));
        }
      }
    }
  }

  /** Where a run of interrupt steps leads, if it is one of a port on which the handler can run. */
  ghost function Reached(start: World, done: seq<Step>): Option<World> {
    if Inv(start) && (start.life.Open? || start.life.Deactivated?) && IrqRun(start, done)
    then Some(Exec(start, done)) else None
  }

  /** The handler's steps `done` lead from `start` to `w`. */
  ghost predicate Taken(start: World, done: seq<Step>, w: World) {
    Reached(start, done) == Some(w)
  }

  lemma TakenNone(start: World, turns: seq<Turn>, budget: nat)
    requires Inv(start) && (start.life.Open? || start.life.Deactivated?) && |turns| >= budget
    ensures Taken(start, [], start) && turns[0..] == turns
    ensures [] + Trace(start, turns, budget) == Trace(start, turns, budget)
  {
  }

  lemma TakenAll(start: World, done: seq<Step>, w: World)
    requires Taken(start, done, w)
    ensures IrqRun(start, done) && w == Exec(start, done) && done + [] == done
  {
  }

  lemma TakenKeeps(start: World, done: seq<Step>, w: World)
    requires Taken(start, done, w)
    ensures Inv(w) && (w.life.Open? || w.life.Deactivated?)
  {
    IrqRunKeeps(start, done);
  }

  /** The first turn on the readings from `k` on: the first step of their trace, and what it leaves to do. */
  lemma TraceTurn(w: World, turns: seq<Turn>, k: nat, budget: nat)
    requires 0 < budget && k + budget <= |turns| && (w.life.Open? || w.life.Deactivated?)
    ensures var id, o, run := Identified(w.hw, turns[k].id), turns[k].o, Trace(w, turns[k..], budget);
            var w' := Dispatch(w, id, budget - 1, o);
            if id == 1 then run == []
            else
              && run != [] && run[0].Irq? && Enabled(w, run[0]) && Next(w, run[0]) == w'
              && run[1..] == if Stops(w, id, o) then [] else Trace(w', turns[k + 1..], Left(w, id, budget - 1, o))
  {
    assert turns[k..][0] == turns[k] && turns[k..][1..] == turns[k + 1..];
  }

  lemma TakeStep(start: World, done: seq<Step>, w: World, turns: seq<Turn>, k: nat, budget: nat)
    requires 0 < budget && k + budget <= |turns| && Taken(start, done, w)
    ensures var id, o, run := Identified(w.hw, turns[k].id), turns[k].o, Trace(w, turns[k..], budget);
            var w' := Dispatch(w, id, budget - 1, o);
            if id == 1 then run == []
            else
              && run != [] && Taken(start, done + [run[0]], w')
              && run[1..] == if Stops(w, id, o) then [] else Trace(w', turns[k + 1..], Left(w, id, budget - 1, o))
  {
    TakenKeeps(start, done, w);
    TraceTurn(w, turns, k, budget);
    var run := Trace(w, turns[k..], budget);
    if run != [] {
      IrqRunSnoc(start, done, run[0]);
    }
  }

  lemma Shift(done: seq<Step>, rest: seq<Step>)
    requires rest != []
    ensures done + rest == (done + [rest[0]]) + rest[1..]
  {
  }
}
