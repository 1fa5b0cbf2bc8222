// rust/kernel/serial.rs, apply_termios, over prepare_clock and configure of
// linux/drivers/rust_dw_uart.rs: when a termios change is applied, what a rejected
// one leaves behind, and when the settings reported back are those in force.

module TermiosApply {
  import opened Arithmetic
  import opened BaudDivisor
  import opened Common
  import opened DwConfigure
  import opened ReaskedRate
  import Port = UartModel
  import Protocol = ProtocolTheorems

  type WordBits = b: nat | 5 <= b <= 8 witness 8

  /** The part of a ktermios the controller depends on; rate 0 is B0. */
  datatype Settings = Settings(baud: nat, bits: WordBits, twoStops: bool, parity: bool, odd: bool)

  /** `calls` counts the set_rate requests so far. */
  datatype Clock = Clock(rate: nat, calls: nat)

  /** `recorded` is the rate serial core has on file for the port. */
  datatype Controller = Controller(regs: Regs, clock: Clock, recorded: nat)

  /**
   * The environment: the divisor's fraction bits, what the clock runs at after the n-th
   * set_rate, which LCR writes meet a busy controller, and the rate serial core picks
   * within the limits it is given.
   */
  datatype Env = Env(fraction: nat, tune: (nat, nat) -> nat, pattern: Pattern, pick: (nat, nat) -> nat)

  function Asked(s: Settings): (baud: nat)
    ensures s.baud == 0 ==> baud == 9600
  {
    if s.baud == 0 then 9600 else s.baud
  }

  function Framing(s: Settings): bv8 {
    LineControl(s.bits, s.twoStops, s.parity, s.odd)
  }

  /** prepare_clock: set_rate is called only for another rate, and may be ignored. */
  function Retuned(c: Clock, baud: nat, e: Env): Clock {
    var wanted := Wanted(baud, e.fraction);
    if c.rate == wanted then c else Clock(e.tune(c.calls, wanted), c.calls + 1)
  }

  /** The clock's rate as a 32-bit number, or the fallback when it has none. */
  function Readable(c: Clock, fallback: nat): nat {
    if c.rate < U32 then c.rate else fallback
  }

  /** What the change tries to program. */
  datatype Attempt = Attempt(clock: Clock, rate: nat, baud: nat)

  function Prepared(c: Controller, next: Settings, e: Env): Attempt {
    var c1 := Retuned(c.clock, Asked(next), e);
    var r1 := Readable(c1, c.recorded);
    var baud := e.pick(Floor(r1), r1 / 16);
    if baud == Asked(next) then Attempt(c1, r1, baud)
    else
      var c2 := Retuned(c1, baud, e);
      Attempt(c2, Readable(c2, r1), baud)
  }

  /** The lowest rate the sixteen-bit divisor reaches, and never below fifty. */
  function Floor(rate: nat): (low: nat)
    ensures low >= 50 && rate < 1_048_560 * (low + 1)
    ensures low > 50 ==> 1_048_560 * low <= rate
  {
    if rate / 16 / 65535 >= 50 then rate / 16 / 65535 else 50
  }

  /** What a change tells the kernel log: nothing, that the old settings stay, or that the clock is lost. */
  datatype Notice = Silent | KeepsPrevious | ClockLost

  datatype Reply = Reply(c: Controller, reported: Settings, accepted: bool, notice: Notice)

  function Programming(c: Controller, next: Settings, e: Env): (Regs, Outcome) {
    var a := Prepared(c, next, e);
    Configured(c.regs, ComputeDivisor(a.rate, a.baud, e.fraction), Framing(next), e.pattern)
  }

  function Apply(c: Controller, next: Settings, previous: Option<Settings>, e: Env): Reply {
    var a := Prepared(c, next, e);
    var (regs, outcome) := Programming(c, next, e);
    if outcome.Applied? && outcome.rate != 0 then
      Reply(Controller(regs, a.clock, a.rate),
            next.(baud := if next.baud == 0 then 0 else outcome.rate), true, Silent)
    else
      match previous
      case None => Reply(c.(regs := regs, clock := a.clock), next, false, KeepsPrevious)
      case Some(p) =>
        var back := Retuned(a.clock, Asked(p), e);
        Reply(c.(regs := regs, clock := back), p, false,
              if Readable(back, a.rate) != c.recorded then ClockLost else Silent)
  }

  // ----- accepted changes -----

  /** The controller runs at these settings; at B0 the rate does not matter. */
  ghost predicate InForce(c: Controller, s: Settings, e: Env) {
    var fixed := Value(256 * c.regs.dlh + c.regs.dll, c.regs.dlf, e.fraction);
    && c.regs.lcr == Framing(s)
    && fixed > 0
    && (s.baud == 0 || s.baud == ActualBaud(c.clock.rate, fixed, Pow2(e.fraction)))
  }

  /** A change counts as accepted exactly when configure programmed it: its rate is never zero. */
  lemma AcceptedIff(c: Controller, next: Settings, previous: Option<Settings>, e: Env)
    ensures Apply(c, next, previous, e).accepted <==> Programming(c, next, e).1.Applied?
  {
    var a := Prepared(c, next, e);
    AppliedExactly(c.regs, ComputeDivisor(a.rate, a.baud, e.fraction), Framing(next), e.pattern);
  }

  lemma FramingKeepsLatchShut(s: Settings)
    ensures Framing(s) & DLAB == 0
  {
  }

  /**
   * An accepted change, from any start: framing as asked for, the rate within two percent of
   * the one picked and reported as it is, the enables kept, and the true clock on file.
   */
  lemma AcceptedIsInForce(c: Controller, next: Settings, previous: Option<Settings>, e: Env)
    requires Apply(c, next, previous, e).accepted && Apply(c, next, previous, e).c.clock.rate < U32
    ensures var r := Apply(c, next, previous, e);
            && InForce(r.c, r.reported, e) && !Dlab(r.c.regs)
            && r.reported == next.(baud := r.reported.baud)
            && (next.baud != 0 ==>
                  var picked := Prepared(c, next, e).baud; AbsDiff(r.reported.baud, picked) * 100 <= 2 * picked)
            && r.c.recorded == r.c.clock.rate
            && r.c.regs.ier == Peek(c.regs, HIGH_OR_IER)
  {
    var a := Prepared(c, next, e);
    FramingKeepsLatchShut(next);
    AppliedExactly(c.regs, ComputeDivisor(a.rate, a.baud, e.fraction), Framing(next), e.pattern);
    ValueIsFixed(a.rate, a.baud, e.fraction);
  }

  // ----- rejected changes -----

  /** Registers: the change never got past its first LCR write, or the rollback's two writes are taken. */
  ghost predicate RegistersReturn(c: Controller, next: Settings, e: Env) {
    var a := Prepared(c, next, e);
    var divisor := ComputeDivisor(a.rate, a.baud, e.fraction);
    || divisor.None?
    || !Programmed(c.regs, divisor.value, Framing(next), e.pattern).1
    || RollbackTakes(c.regs, Refused(c.regs, divisor.value, Framing(next), e.pattern), e.pattern)
  }

  /** The controller when the last LCR write of a change has been refused. */
  function Refused(r: Regs, d: Divisor, lcr: bv8, p: Pattern): Regs {
    TryLcr(Programmed(r, d, lcr, p).0, lcr, p.busy, p.tries).0
  }

  /**
   * Clock: without previous settings it must not have moved; with them the rate they ask
   * for must be the old one, or what the last set_rate makes of it.
   */
  predicate ClockReturns(c: Controller, next: Settings, previous: Option<Settings>, e: Env) {
    var now := Prepared(c, next, e).clock;
    match previous
    case None => now.rate == c.clock.rate
    case Some(p) =>
      var wanted := Wanted(Asked(p), e.fraction);
      c.clock.rate == if now.rate == wanted then wanted else e.tune(now.calls, wanted)
  }

  /** A rejected change leaves registers and clock as they were exactly under these conditions. */
  lemma RejectedRestoresIff(c: Controller, next: Settings, previous: Option<Settings>, e: Env)
    requires !Dlab(c.regs) && !Apply(c, next, previous, e).accepted
    ensures var r := Apply(c, next, previous, e);
            && (SameSettings(c.regs, r.c.regs) <==> RegistersReturn(c, next, e))
            && (r.c.clock.rate == c.clock.rate <==> ClockReturns(c, next, previous, e))
            && r.c.recorded == c.recorded
            && r.reported == (if previous.Some? then previous.value else next)
  {
    var a := Prepared(c, next, e);
    AcceptedIff(c, next, previous, e);
    FramingKeepsLatchShut(next);
    FailedRestoresIff(c.regs, ComputeDivisor(a.rate, a.baud, e.fraction), Framing(next), e.pattern);
  }

  /** Silence means that the clock is back, but for a rate that no 32-bit number holds. */
  lemma SilentIff(c: Controller, next: Settings, p: Settings, e: Env)
    requires c.recorded == c.clock.rate < U32 && !Apply(c, next, Some(p), e).accepted
    ensures var r := Apply(c, next, Some(p), e);
            (r.notice.Silent? <==> r.c.clock.rate == c.clock.rate) <==>
              (r.c.clock.rate < U32 || Prepared(c, next, e).rate != c.recorded)
  {
  }

  /** What the port's state machine is told about a change. */
  function VerdictOf(before: Controller, r: Reply): Port.Verdict {
    if r.accepted then Port.Accepted
    else Port.Rejected(SameSettings(before.regs, r.c.regs), r.c.clock.rate == before.clock.rate, Dlab(r.c.regs))
  }

  lemma VerdictConsistent(c: Controller, next: Settings, previous: Option<Settings>, e: Env)
    ensures Port.Consistent(Dlab(c.regs), VerdictOf(c, Apply(c, next, previous, e)))
  {
  }

  // ----- a clock that does as it is told -----

  /** set_rate is honoured, and serial core keeps to the limits it is given (or finds no rate at all). */
  ghost predicate Cooperative(e: Env) {
    && (forall n: nat, rate: nat :: e.tune(n, rate) == rate)
    && (forall low: nat, high: nat :: e.pick(low, high) == 0 || low <= e.pick(low, high) <= high)
  }

  /** The clock on file is the true one, and the one the settings ask for. */
  predicate Tuned(c: Controller, s: Settings, e: Env) {
    && c.recorded == c.clock.rate < U32
    && (s.baud != 0 ==> c.clock.rate == Wanted(s.baud, e.fraction))
  }

  lemma WantedIsReadable(baud: nat, bits: nat)
    ensures Wanted(baud, bits) < U32
  {
  }

  /** An attempt to program a rate leaves the clock that this rate asks for. */
  lemma AttemptIsTuned(c: Controller, next: Settings, e: Env)
    requires Cooperative(e) && c.recorded < U32
    ensures var a := Prepared(c, next, e);
            && a.clock.rate == Wanted(a.baud, e.fraction) && a.rate == a.clock.rate
            && (a.baud != 0 ==> 50 <= a.baud && 16 * a.baud < U32)
  {
    WantedIsReadable(Asked(next), e.fraction);
    WantedIsReadable(Prepared(c, next, e).baud, e.fraction);
  }

  lemma NoDivisorForZero(c: Controller, next: Settings, previous: Option<Settings>, e: Env)
    requires Apply(c, next, previous, e).accepted
    ensures Prepared(c, next, e).baud != 0
  {
  }

  /** Which requested rates the limits let through: from fifty up, and up to a sixteenth of their own clock. */
  lemma LimitsIff(baud: nat, bits: nat)
    ensures var clock := Wanted(baud, bits);
            Floor(clock) <= baud <= clock / 16 <==>
              50 <= baud && (if clock == 24_000_000 then baud <= 1_500_000 else 16 * baud < 0x1_0000_0000)
  {
    var clock := Wanted(baud, bits);
    if clock != REFERENCE_RATE && 16 * baud < U32 {
      assert clock == 16 * baud && clock / 16 == baud;
    }
  }

  /** A controller that never ignores a thousand LCR writes in a row. */
  ghost predicate Obedient(c: Controller, e: Env) {
    e.fraction <= 16 && e.pattern.tries == 1000 && !EverIgnores(e.pattern.busy, c.regs.attempts, 1000)
  }

  /** Whatever rate serial core picks within the limits is programmed, within two percent. */
  lemma PickedIsProgrammed(c: Controller, next: Settings, previous: Option<Settings>, e: Env)
    requires Cooperative(e) && Obedient(c, e) && c.recorded < U32 && Prepared(c, next, e).baud != 0
    ensures var r := Apply(c, next, previous, e);
            && r.accepted && InForce(r.c, r.reported, e) && r.reported == next.(baud := r.reported.baud)
            && (next.baud != 0 ==>
                  AbsDiff(r.reported.baud, Prepared(c, next, e).baud) * 100 <= 2 * Prepared(c, next, e).baud)
  {
    var a := Prepared(c, next, e);
    AttemptIsTuned(c, next, e);
    BaudClockAccepted(REFERENCE_RATE, a.baud, e.fraction);
    var divisor := ComputeDivisor(a.rate, a.baud, e.fraction);
    ConfiguredIsPatient(c.regs, divisor, Framing(next), e.pattern);
    AcceptedIff(c, next, previous, e);
    WantedIsReadable(a.baud, e.fraction);
    AcceptedIsInForce(c, next, previous, e);
  }

  /** So a requested rate within the limits that serial core picks as it is becomes the rate of the line. */
  lemma RequestedIsProgrammed(c: Controller, next: Settings, previous: Option<Settings>, e: Env)
    requires Cooperative(e) && Obedient(c, e) && c.recorded < U32
    requires var clock := Wanted(Asked(next), e.fraction);
             Floor(clock) <= Asked(next) <= clock / 16 && e.pick(Floor(clock), clock / 16) == Asked(next)
    ensures Prepared(c, next, e).baud == Asked(next) && Apply(c, next, previous, e).accepted
  {
    WantedIsReadable(Asked(next), e.fraction);
    PickedIsProgrammed(c, next, previous, e);
  }

  /**
   * With such a clock an accepted change is in force, and asking again for the rate it
   * reports asks for the clock it runs on.
   */
  lemma AcceptedIsTuned(c: Controller, next: Settings, previous: Option<Settings>, e: Env)
    requires Cooperative(e) && c.recorded < U32 && Apply(c, next, previous, e).accepted
    ensures var r := Apply(c, next, previous, e); InForce(r.c, r.reported, e) && Tuned(r.c, r.reported, e)
  {
    var a := Prepared(c, next, e);
    AttemptIsTuned(c, next, e);
    NoDivisorForZero(c, next, previous, e);
    WantedIsReadable(a.baud, e.fraction);
    AcceptedIsInForce(c, next, previous, e);
    FramingKeepsLatchShut(next);
    AppliedExactly(c.regs, ComputeDivisor(a.rate, a.baud, e.fraction), Framing(next), e.pattern);
    SameClockAgain(a.baud, e.fraction);
  }

  /** So a rejected change silently gets the old clock back, and only the registers decide what is in force. */
  lemma RejectedIsTuned(c: Controller, next: Settings, p: Settings, e: Env)
    requires Cooperative(e) && Tuned(c, p, e) && p.baud != 0 && !Apply(c, next, Some(p), e).accepted
    ensures var r := Apply(c, next, Some(p), e);
            && Tuned(r.c, p, e) && r.c.clock.rate == c.clock.rate && r.notice == Silent && r.reported == p
            && (!Dlab(c.regs) ==> (SameSettings(c.regs, r.c.regs) <==> RegistersReturn(c, next, e)))
  {
    if !Dlab(c.regs) {
      RejectedRestoresIff(c, next, Some(p), e);
    }
  }

  // ----- any number of changes -----

  /** One change of a series: serial core names what it believes in force, and picks a rate. */
  datatype Ask = Ask(next: Settings, pick: (nat, nat) -> nat)

  function ApplyAll(c: Controller, s: Settings, asks: seq<Ask>, e: Env): (Controller, Settings)
    decreases |asks|
  {
    if asks == [] then (c, s)
    else
      var r := Apply(c, asks[0].next, Some(s), e.(pick := asks[0].pick));
      ApplyAll(r.c, r.reported, asks[1..], e)
  }

  /** The verdicts of a series of changes, as steps of the port's state machine. */
  function Verdicts(c: Controller, s: Settings, asks: seq<Ask>, e: Env): seq<Port.Step>
    decreases |asks|
  {
    if asks == [] then []
    else
      var r := Apply(c, asks[0].next, Some(s), e.(pick := asks[0].pick));
      [Port.CfgApply(VerdictOf(c, r))] + Verdicts(r.c, r.reported, asks[1..], e)
  }

  lemma InForceSurvives(c: Controller, c': Controller, s: Settings, e: Env)
    requires InForce(c, s, e) && SameSettings(c.regs, c'.regs) && c'.clock.rate == c.clock.rate
    ensures InForce(c', s, e)
  {
  }

  /** A rate that a 32-bit number holds, which is all the driver asks for, gives such a rate. */
  ghost predicate Bounded(e: Env) {
    forall n: nat, rate: nat :: rate < U32 ==> e.tune(n, rate) < U32
  }

  lemma AcceptedIsReadable(c: Controller, next: Settings, previous: Option<Settings>, e: Env)
    requires Bounded(e) && Apply(c, next, previous, e).accepted
    ensures Apply(c, next, previous, e).c.clock.rate < U32
  {
    WantedIsReadable(Asked(next), e.fraction);
    WantedIsReadable(Prepared(c, next, e).baud, e.fraction);
  }

  /**
   * After any series of changes the controller runs at the settings serial core believes
   * in, if no rejection since the last accepted change was left unrestored: the verdicts
   * mean what the state machine of the port takes them to mean.
   */
  lemma {:induction false} BelievedIsInForce(c: Controller, s: Settings, asks: seq<Ask>, e: Env, ok: bool)
    requires Bounded(e) && (ok ==> InForce(c, s, e))
    ensures var (c', s') := ApplyAll(c, s, asks, e);
            Protocol.InForce(Verdicts(c, s, asks, e), ok) ==> InForce(c', s', e)
    decreases |asks|
  {
    if asks != [] {
      var e0 := e.(pick := asks[0].pick);
      var r := Apply(c, asks[0].next, Some(s), e0);
      var step := Port.CfgApply(VerdictOf(c, r));
      if r.accepted {
        AcceptedIsReadable(c, asks[0].next, Some(s), e0);
        AcceptedIsInForce(c, asks[0].next, Some(s), e0);
      } else if SameSettings(c.regs, r.c.regs) && r.c.clock.rate == c.clock.rate && ok {
        InForceSurvives(c, r.c, s, e);
      }
      BelievedIsInForce(r.c, r.reported, asks[1..], e, Protocol.InForceAfter(step, ok));
      assert Verdicts(c, s, asks, e)[1..] == Verdicts(r.c, r.reported, asks[1..], e);
    }
  }

  /** Every rejection of the series stops at its first LCR write or gets its rollback's writes through. */
  ghost predicate RollbacksTake(c: Controller, s: Settings, asks: seq<Ask>, e: Env)
    decreases |asks|
  {
    asks == [] ||
    var e0 := e.(pick := asks[0].pick);
    var r := Apply(c, asks[0].next, Some(s), e0);
    (r.accepted || RegistersReturn(c, asks[0].next, e0)) && RollbacksTake(r.c, r.reported, asks[1..], e)
  }

  /** What serial core believes is in force, on the clock these settings ask for. */
  ghost predicate Sound(c: Controller, s: Settings, e: Env) {
    InForce(c, s, e) && c.recorded < U32 && (s.baud != 0 ==> Tuned(c, s, e))
  }

  lemma ChangeStaysSound(c: Controller, s: Settings, next: Settings, e: Env)
    requires Sound(c, s, e) && Cooperative(e)
    requires Apply(c, next, Some(s), e).accepted || RegistersReturn(c, next, e)
    ensures var r := Apply(c, next, Some(s), e); Sound(r.c, r.reported, e)
  {
    var r := Apply(c, next, Some(s), e);
    FramingKeepsLatchShut(s);
    if r.accepted {
      AcceptedIsTuned(c, next, Some(s), e);
    } else {
      RejectedRestoresIff(c, next, Some(s), e);
      if s.baud != 0 {
        RejectedIsTuned(c, next, s, e);
      }
    }
  }

  /**
   * With a clock that honours set_rate the registers alone decide: the settings believed in
   * are in force after any series of changes whose rejections all get their rollback through.
   */
  lemma {:induction false} BelievedWhenRollbacksTake(c: Controller, s: Settings, asks: seq<Ask>, e: Env)
    requires Sound(c, s, e) && RollbacksTake(c, s, asks, e)
    requires forall a :: a in asks ==> Cooperative(e.(pick := a.pick))
    ensures var (c', s') := ApplyAll(c, s, asks, e); Sound(c', s', e)
    decreases |asks|
  {
    if asks != [] {
      var e0 := e.(pick := asks[0].pick);
      assert asks[0] in asks && forall a :: a in asks[1..] ==> a in asks;
      ChangeStaysSound(c, s, asks[0].next, e0);
      var r := Apply(c, asks[0].next, Some(s), e0);
      BelievedWhenRollbacksTake(r.c, r.reported, asks[1..], e);
    }
  }

  // ----- the conditions fail on these inputs -----

  const OLD: Settings := Settings(115385, 8, false, false, false)
  const START: Controller := Controller(Regs(0x03, 13, 0, 0, 5, 0, 0), Clock(REFERENCE_RATE, 0), REFERENCE_RATE)

  /** Serial core's pick of a rate it can have. */
  function Picking(rate: nat): (nat, nat) -> nat {
    (low: nat, high: nat) => if low <= rate <= high then rate else 0
  }

  /** An honest clock, no fraction, and a controller that stays busy after the first write. */
  function Stuck(tries: nat): Env {
    Env(0, (n, rate) => rate, Pattern(n => n > 0, tries), Picking(57600))
  }

  lemma StartIsGood(tries: nat)
    ensures InForce(START, OLD, Stuck(tries)) && Tuned(START, OLD, Stuck(tries))
  {
    assert ComputeDivisor(REFERENCE_RATE, 115385, 0).Some?;
    assert Framing(OLD) == 0x03;
  }

  lemma StuckAttempt(tries: nat)
    ensures var next := OLD.(baud := 57600);
            && Prepared(START, next, Stuck(tries)) == Attempt(START.clock, REFERENCE_RATE, 57600)
            && Programming(START, next, Stuck(tries))
               == Configured(START.regs, Some(Divisor(26, 0, 57692)), 0x03, Stuck(tries).pattern)
  {
    assert ComputeDivisor(REFERENCE_RATE, 57600, 0) == Some(Divisor(26, 0, 57692));
  }

  /** Such a controller rejects a change silently although DLAB stays set and the old settings are gone. */
  lemma SilentlyGarbled(tries: nat)
    requires tries > 0
    ensures var e := Stuck(tries);
            var r := Apply(START, OLD.(baud := 57600), Some(OLD), e);
            && Cooperative(e) && Sound(START, OLD, e)
            && !r.accepted && r.reported == OLD && r.notice == Silent && Dlab(r.c.regs) && !InForce(r.c, OLD, e)
  {
    StartIsGood(tries);
    StuckAttempt(tries);
    BusyForeverCorrupts(tries);
    FramingKeepsLatchShut(OLD);
  }

  /**
   * A controller that ignores every write, asked for a rate of its own clock without
   * previous settings: "keeps its previous settings" is said with the clock moved.
   */
  lemma KeepsPreviousMisleads(tries: nat)
    ensures var e := Env(0, (n, rate) => rate, Pattern(n => true, tries), Picking(921600));
            var r := Apply(START, OLD.(baud := 921600), None, e);
            && Cooperative(e) && !r.accepted && r.notice == KeepsPrevious
            && SameSettings(START.regs, r.c.regs) && r.c.clock.rate == 14_745_600
  {
    var e := Env(0, (n, rate) => rate, Pattern(n => true, tries), Picking(921600));
    var c, next := START, OLD.(baud := 921600);
    assert ComputeDivisor(REFERENCE_RATE, 921600, 0) == None;
    var a := Prepared(c, next, e);
    assert a.clock.rate == 14_745_600;
    var d := ComputeDivisor(a.rate, a.baud, 0);
    if d.Some? {
      ProgrammedIs(c.regs, d.value, 0x03, e.pattern);
      TryLcrIff(Masked(c.regs), 0x03 | DLAB, e.pattern.busy, tries);
    }
    AcceptedIff(c, next, None, e);
    FirstFailureRestores(c.regs, d, 0x03, e.pattern);
  }

  // ----- the code -----

  class DwPort {
    const regs: DwRegisters
    const fraction: nat
    const tune: (nat, nat) -> nat
    var rate: nat
    var calls: nat
    var recorded: nat

    ghost function View(): Controller
      reads this, regs
    {
      Controller(regs.View(), Clock(rate, calls), recorded)
    }

    ghost function Environment(pick: (nat, nat) -> nat): Env {
      Env(fraction, tune, regs.p, pick)
    }

    constructor (c: Controller, fraction: nat, tune: (nat, nat) -> nat, busy: nat -> bool)
      ensures View() == c && this.fraction == fraction && this.tune == tune && regs.p == Pattern(busy, 1000)
      ensures fresh(regs)
    {
      regs := new DwRegisters(c.regs, busy);
      this.fraction, this.tune := fraction, tune;
      rate, calls, recorded := c.clock.rate, c.clock.calls, c.recorded;
    }

    /** `onFile` is the caller's idea of the rate, for when the true one cannot be expressed. */
    method PrepareClock(baud: nat, onFile: nat, ghost e: Env) returns (r: nat)
      requires e.fraction == fraction && e.tune == tune
      modifies `rate, `calls
      ensures Clock(rate, calls) == Retuned(old(Clock(rate, calls)), baud, e)
      ensures r == Readable(Clock(rate, calls), onFile)
    {
      var wanted := Wanted(baud, fraction);
      if rate != wanted {
        rate := tune(calls, wanted);
        calls := calls + 1;
      }
      r := if rate < U32 then rate else onFile;
    }

    /** The clock for the requested rate, serial core's pick, and the clock for that. */
    method Prepare(next: Settings, pick: (nat, nat) -> nat) returns (clock: nat, baud: nat)
      modifies `rate, `calls
      ensures Attempt(Clock(rate, calls), clock, baud) == Prepared(old(View()), next, Environment(pick))
    {
      var requested := if next.baud == 0 then 9600 else next.baud;
      clock := PrepareClock(requested, recorded, Environment(pick));
      baud := pick(Floor(clock), clock / 16);
      if baud != requested {
        clock := PrepareClock(baud, clock, Environment(pick));
      }
    }

    /** `pick` is uart_get_baud_rate. */
    method ApplyTermios(next: Settings, previous: Option<Settings>, pick: (nat, nat) -> nat)
      returns (reported: Settings, accepted: bool, notice: Notice)
      modifies this, regs
      ensures Reply(View(), reported, accepted, notice) == Apply(old(View()), next, previous, Environment(pick))
    {
      var clock, baud := Prepare(next, pick);
      var outcome := regs.Configure(ComputeDivisor(clock, baud, fraction), Framing(next));
      if outcome.Applied? && outcome.rate != 0 {
        recorded := clock;
        return next.(baud := if next.baud == 0 then 0 else outcome.rate), true, Silent;
      }
      if previous.None? {
        return next, false, KeepsPrevious;
      }
      var back := PrepareClock(Asked(previous.value), clock, Environment(pick));
      return previous.value, false, if back != recorded then ClockLost else Silent;
    }
  }
}
