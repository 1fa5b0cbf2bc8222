// linux/drivers/rust_dw_uart.rs, write_lcr and configure: programming the divisor
// and framing through registers that share addresses behind DLAB, on a controller
// that may ignore LCR writes while it is busy.

module DwConfigure {
  import opened Arithmetic
  import opened Common
  import opened BaudDivisor

  const DLAB: bv8 := 0x80
  const LCR_TRIES: nat := 1000

  // Offsets 0x00 and 0x04 reach DLL and DLH while DLAB is set.
  const LOW: nat := 0x00
  const HIGH_OR_IER: nat := 0x04
  const FRACTION: nat := 0xc0

  /** `attempts` counts LCR writes, `resets` the FIFO resets after ignored ones. */
  datatype Regs = Regs(lcr: bv8, dll: nat, dlh: nat, dlf: nat, ier: nat, attempts: nat, resets: nat)

  /**
   * Whether the n-th LCR write meets a busy controller, and how often the driver
   * tries (LCR_TRIES; nothing depends on the number).
   */
  datatype Pattern = Pattern(busy: nat -> bool, tries: nat)

  predicate Dlab(r: Regs) {
    r.lcr & DLAB != 0
  }

  function Poke(r: Regs, offset: nat, value: nat): Regs {
    if offset == LOW then (if Dlab(r) then r.(dll := value) else r)
    else if offset == HIGH_OR_IER then (if Dlab(r) then r.(dlh := value) else r.(ier := value))
    else if offset == FRACTION then r.(dlf := value)
    else r
  }

  function Peek(r: Regs, offset: nat): nat {
    if offset == LOW then (if Dlab(r) then r.dll else 0)
    else if offset == HIGH_OR_IER then (if Dlab(r) then r.dlh else r.ier)
    else if offset == FRACTION then r.dlf
    else 0
  }

  /** The register map: offsets 0 and 4 are the divisor latch while bit 7 of LCR is set. */
  lemma RegisterMap(r: Regs, value: nat)
    ensures Poke(r, 0x00, value) == (if r.lcr & 0x80 != 0 then r.(dll := value) else r)
    ensures Poke(r, 0x04, value) == (if r.lcr & 0x80 != 0 then r.(dlh := value) else r.(ier := value))
    ensures Poke(r, 0xc0, value) == r.(dlf := value)
    ensures Peek(r, 0x04) == (if r.lcr & 0x80 != 0 then r.dlh else r.ier) && Peek(r, 0xc0) == r.dlf
    ensures r.lcr & 0x80 != 0 ==> Peek(r, 0x00) == r.dll
  {
  }

  function PokeLcr(r: Regs, value: bv8, busy: nat -> bool): Regs {
    r.(lcr := if busy(r.attempts) then r.lcr else value, attempts := r.attempts + 1)
  }

  /** write_lcr with `tries` attempts left. */
  function TryLcr(r: Regs, value: bv8, busy: nat -> bool, tries: nat): (Regs, bool)
    decreases tries
  {
    if tries == 0 then (r, false)
    else
      var r1 := PokeLcr(r, value, busy);
      if r1.lcr == value then (r1, true)
      else TryLcr(r1.(resets := r1.resets + 1), value, busy, tries - 1)
  }

  /** The controller takes the value within the bounded retries, or holds it already. */
  ghost predicate Takes(r: Regs, value: bv8, busy: nat -> bool, tries: nat) {
    tries > 0 && (r.lcr == value || exists i :: r.attempts <= i < r.attempts + tries && !busy(i))
  }

  lemma {:induction false} TryLcrIff(r: Regs, value: bv8, busy: nat -> bool, tries: nat)
    ensures var (r', ok) := TryLcr(r, value, busy, tries);
            && (ok <==> Takes(r, value, busy, tries))
            && r' == r.(lcr := if ok then value else r.lcr, attempts := r'.attempts, resets := r'.resets)
            && (!ok ==> r'.attempts == r.attempts + tries)
    decreases tries
  {
    if tries > 0 {
      var r1 := PokeLcr(r, value, busy);
      if r1.lcr != value {
        assert busy(r.attempts);
        TryLcrIff(r1.(resets := r1.resets + 1), value, busy, tries - 1);
      } else if r.lcr != value {
        assert !busy(r.attempts);
      }
    }
  }

  /** The receive FIFO is reset exactly when the first attempt is needed and ignored. */
  lemma {:induction false} TryLcrResetsIff(r: Regs, value: bv8, busy: nat -> bool, tries: nat)
    ensures var r' := TryLcr(r, value, busy, tries).0;
            && r.resets <= r'.resets
            && (r'.resets > r.resets <==> tries > 0 && r.lcr != value && busy(r.attempts))
    decreases tries
  {
    if tries > 0 {
      var r1 := PokeLcr(r, value, busy);
      if r1.lcr != value {
        TryLcrResetsIff(r1.(resets := r1.resets + 1), value, busy, tries - 1);
      }
    }
  }

  datatype Outcome = Applied(rate: nat) | Invalid | Busy

  function PokeDivisor(r: Regs, low: nat, high: nat, fraction: nat): Regs {
    Poke(Poke(Poke(r, LOW, low), HIGH_OR_IER, high), FRACTION, fraction)
  }

  /** The interrupt enables are masked, or DLH is cleared when DLAB was left set. */
  function Masked(r: Regs): Regs {
    Poke(r, HIGH_OR_IER, 0)
  }

  /** The state in which the new divisor is in place and the last LCR write is due. */
  function Programmed(r: Regs, d: Divisor, lcr: bv8, p: Pattern): (Regs, bool) {
    var (r1, ok) := TryLcr(Masked(r), lcr | DLAB, p.busy, p.tries);
    (if ok then PokeDivisor(r1, d.integer % 256, d.integer / 256, d.fraction) else r1, ok)
  }

  /** The rollback after the last LCR write failed, up to the restored interrupt enables. */
  function RolledBack(r: Regs, at: Regs, p: Pattern): Regs {
    var before := r.lcr & 0x7f;
    var (r1, ok) := TryLcr(at, before | DLAB, p.busy, p.tries);
    var r2 := if ok then PokeDivisor(r1, r.dll, Masked(r).dlh, r.dlf) else r1;
    TryLcr(r2, before, p.busy, p.tries).0
  }

  function Configured(r: Regs, divisor: Option<Divisor>, lcr: bv8, p: Pattern): (Regs, Outcome) {
    match divisor
    case None => (r, Invalid)
    case Some(d) =>
      var ier := Peek(r, HIGH_OR_IER);
      var (r1, ok) := Programmed(r, d, lcr, p);
      if !ok then (Poke(TryLcr(r1, r.lcr & 0x7f, p.busy, p.tries).0, HIGH_OR_IER, ier), Busy)
      else
        var (r2, last) := TryLcr(r1, lcr, p.busy, p.tries);
        if !last then (Poke(RolledBack(r, r2, p), HIGH_OR_IER, ier), Busy)
        else (Poke(r2, HIGH_OR_IER, ier), Applied(d.actualBaud))
  }

  // ----- what configure guarantees -----

  /** Everything a caller sees of the line settings. */
  predicate SameSettings(r: Regs, r': Regs) {
    r'.lcr == r.lcr && r'.dll == r.dll && r'.dlh == r.dlh && r'.dlf == r.dlf && r'.ier == r.ier
  }

  lemma DlabBits(v: bv8)
    ensures (v | DLAB) & DLAB != 0 && (v | DLAB) & 0x7f == v & 0x7f && (v & 0x7f) & DLAB == 0
    ensures v & DLAB == 0 ==> v & 0x7f == v
  {
  }

  lemma ProgrammedIs(r: Regs, d: Divisor, lcr: bv8, p: Pattern)
    ensures var (r1, ok) := Programmed(r, d, lcr, p);
            var m := Masked(r);
            if ok then r1 == m.(lcr := lcr | DLAB, dll := d.integer % 256, dlh := d.integer / 256,
                                dlf := d.fraction, attempts := r1.attempts, resets := r1.resets)
            else r1 == m.(attempts := r1.attempts, resets := r1.resets)
  {
    DlabBits(lcr);
    TryLcrIff(Masked(r), lcr | DLAB, p.busy, p.tries);
  }

  /** No interrupt is enabled while divisor and framing are being written, whichever way it goes. */
  lemma MaskedMeanwhile(r: Regs, d: Divisor, lcr: bv8, p: Pattern)
    requires !Dlab(r) && lcr & DLAB == 0
    ensures Programmed(r, d, lcr, p).0.ier == 0
    ensures Programmed(r, d, lcr, p).1 ==>
              && TryLcr(Programmed(r, d, lcr, p).0, lcr, p.busy, p.tries).0.ier == 0
              && RolledBack(r, TryLcr(Programmed(r, d, lcr, p).0, lcr, p.busy, p.tries).0, p).ier == 0
  {
    ProgrammedIs(r, d, lcr, p);
    var at := Programmed(r, d, lcr, p).0;
    if Programmed(r, d, lcr, p).1 {
      DlabBits(lcr);
      TryLcrIff(at, lcr, p.busy, p.tries);
      RollBackKeepsIer(r, TryLcr(at, lcr, p.busy, p.tries).0, p);
    }
  }

  lemma RollBackKeepsIer(r: Regs, at: Regs, p: Pattern)
    ensures Dlab(at) || at.lcr & DLAB == 0 ==> RolledBack(r, at, p).ier == at.ier
  {
    var before := r.lcr & 0x7f;
    DlabBits(before);
    TryLcrIff(at, before | DLAB, p.busy, p.tries);
    var (r1, ok) := TryLcr(at, before | DLAB, p.busy, p.tries);
    TryLcrIff(if ok then PokeDivisor(r1, r.dll, Masked(r).dlh, r.dlf) else r1, before, p.busy, p.tries);
  }

  /**
   * Success, from any start: framing and divisor are exactly as requested, DLAB is clear,
   * and the interrupt enables are back even if they had been left in DLH.
   */
  lemma AppliedExactly(r: Regs, divisor: Option<Divisor>, lcr: bv8, p: Pattern)
    requires lcr & DLAB == 0
    ensures var (r', outcome) := Configured(r, divisor, lcr, p);
            outcome.Applied? ==>
              && divisor.Some? && outcome.rate == divisor.value.actualBaud
              && r'.lcr == lcr && !Dlab(r')
              && 256 * r'.dlh + r'.dll == divisor.value.integer && r'.dll < 256
              && r'.dlf == divisor.value.fraction
              && r'.ier == Peek(r, HIGH_OR_IER)
  {
    if divisor.Some? {
      var d := divisor.value;
      ProgrammedIs(r, d, lcr, p);
      TryLcrIff(Programmed(r, d, lcr, p).0, lcr, p.busy, p.tries);
      DivMod(d.integer, 256);
    }
  }

  /** A framing write that never takes loses nothing, whatever the controller ignores. */
  lemma FirstFailureRestores(r: Regs, divisor: Option<Divisor>, lcr: bv8, p: Pattern)
    requires !Dlab(r)
    requires divisor.Some? ==> !Programmed(r, divisor.value, lcr, p).1
    ensures var (r', outcome) := Configured(r, divisor, lcr, p);
            !outcome.Applied? && SameSettings(r, r')
  {
    if divisor.Some? {
      DlabBits(r.lcr);
      ProgrammedIs(r, divisor.value, lcr, p);
      TryLcrIff(Programmed(r, divisor.value, lcr, p).0, r.lcr & 0x7f, p.busy, p.tries);
    }
  }

  /** The two LCR writes of the rollback, as the controller meets them. */
  ghost predicate RollbackTakes(r: Regs, at: Regs, p: Pattern) {
    var (r1, reopened) := TryLcr(at, r.lcr | DLAB, p.busy, p.tries);
    && (Takes(at, r.lcr | DLAB, p.busy, p.tries) || (at.dll == r.dll && at.dlh == r.dlh && at.dlf == r.dlf))
    && Takes(r1, r.lcr, p.busy, p.tries)
  }

  lemma RolledBackIff(r: Regs, at: Regs, p: Pattern)
    requires !Dlab(r) && Dlab(at) && at.ier == 0
    ensures var r' := Poke(RolledBack(r, at, p), HIGH_OR_IER, r.ier);
            && (SameSettings(r, r') <==> RollbackTakes(r, at, p))
            && (!Takes(TryLcr(at, r.lcr | DLAB, p.busy, p.tries).0, r.lcr, p.busy, p.tries) ==>
                  Dlab(r') && r'.dlh == r.ier && r'.ier == 0)
  {
    DlabBits(r.lcr);
    TryLcrIff(at, r.lcr | DLAB, p.busy, p.tries);
    var (r1, reopened) := TryLcr(at, r.lcr | DLAB, p.busy, p.tries);
    var r2 := if reopened then PokeDivisor(r1, r.dll, r.dlh, r.dlf) else r1;
    TryLcrIff(r2, r.lcr, p.busy, p.tries);
    assert Takes(r2, r.lcr, p.busy, p.tries) <==> Takes(r1, r.lcr, p.busy, p.tries);
  }

  /**
   * Failure: the settings are as before exactly when the change never got past
   * the first LCR write or the controller takes the rollback's two LCR writes.
   * Otherwise DLAB may stay set and the interrupt enables land in DLH.
   */
  lemma FailedRestoresIff(r: Regs, divisor: Option<Divisor>, lcr: bv8, p: Pattern)
    requires !Dlab(r) && lcr & DLAB == 0
    requires !Configured(r, divisor, lcr, p).1.Applied?
    ensures var r' := Configured(r, divisor, lcr, p).0;
            SameSettings(r, r') <==>
              || divisor.None?
              || !Programmed(r, divisor.value, lcr, p).1
              || RollbackTakes(r, TryLcr(Programmed(r, divisor.value, lcr, p).0, lcr, p.busy, p.tries).0, p)
  {
    if divisor.None? || !Programmed(r, divisor.value, lcr, p).1 {
      FirstFailureRestores(r, divisor, lcr, p);
    } else {
      var at := Programmed(r, divisor.value, lcr, p).0;
      DlabBits(lcr);
      ProgrammedIs(r, divisor.value, lcr, p);
      TryLcrIff(at, lcr, p.busy, p.tries);
      RolledBackIff(r, TryLcr(at, lcr, p.busy, p.tries).0, p);
    }
  }

  /** The controller refuses the rollback's last LCR write, which would clear DLAB. */
  ghost predicate RollbackStuck(r: Regs, at: Regs, p: Pattern) {
    !Takes(TryLcr(at, (r.lcr & 0x7f) | DLAB, p.busy, p.tries).0, r.lcr & 0x7f, p.busy, p.tries)
  }

  lemma RolledBackLatch(r: Regs, at: Regs, p: Pattern)
    requires Dlab(at)
    ensures Dlab(RolledBack(r, at, p)) <==> RollbackStuck(r, at, p)
  {
    var before := r.lcr & 0x7f;
    DlabBits(r.lcr);
    DlabBits(before);
    TryLcrIff(at, before | DLAB, p.busy, p.tries);
    var (r1, reopened) := TryLcr(at, before | DLAB, p.busy, p.tries);
    var r2 := if reopened then PokeDivisor(r1, r.dll, Masked(r).dlh, r.dlf) else r1;
    TryLcrIff(r2, before, p.busy, p.tries);
    assert Takes(r2, before, p.busy, p.tries) <==> Takes(r1, before, p.busy, p.tries);
  }

  lemma EnablesSurvive(r: Regs, divisor: Option<Divisor>, lcr: bv8, p: Pattern)
    ensures Peek(Configured(r, divisor, lcr, p).0, HIGH_OR_IER) == Peek(r, HIGH_OR_IER)
  {
  }

  lemma LatchAfter(r: Regs, d: Divisor, lcr: bv8, p: Pattern)
    requires lcr & DLAB == 0
    ensures var (at, started) := Programmed(r, d, lcr, p);
            var (refused, last) := TryLcr(at, lcr, p.busy, p.tries);
            Dlab(Configured(r, Some(d), lcr, p).0) <==>
              if started then !Takes(at, lcr, p.busy, p.tries) && RollbackStuck(r, refused, p)
              else Dlab(r) && !Takes(at, r.lcr & 0x7f, p.busy, p.tries)
  {
    ProgrammedIs(r, d, lcr, p);
    var (at, started) := Programmed(r, d, lcr, p);
    DlabBits(lcr);
    DlabBits(r.lcr);
    TryLcrIff(at, lcr, p.busy, p.tries);
    TryLcrIff(at, r.lcr & 0x7f, p.busy, p.tries);
    if started && !TryLcr(at, lcr, p.busy, p.tries).1 {
      RolledBackLatch(r, TryLcr(at, lcr, p.busy, p.tries).0, p);
    }
  }

  /**
   * When configure ends with DLAB set, from any start: the rollback's last write is
   * refused, or DLAB was set before and none of the writes is taken. The enables are
   * then in DLH, where the next change finds them, and otherwise in IER.
   */
  lemma LatchLeftOpenIff(r: Regs, d: Divisor, lcr: bv8, p: Pattern)
    requires lcr & DLAB == 0
    ensures var (at, started) := Programmed(r, d, lcr, p);
            var (refused, last) := TryLcr(at, lcr, p.busy, p.tries);
            Dlab(Configured(r, Some(d), lcr, p).0) <==>
              if started then !Takes(at, lcr, p.busy, p.tries) && RollbackStuck(r, refused, p)
              else Dlab(r) && !Takes(at, r.lcr & 0x7f, p.busy, p.tries)
    ensures var r' := Configured(r, Some(d), lcr, p).0;
            Peek(r, HIGH_OR_IER) == if Dlab(r') then r'.dlh else r'.ier
  {
    LatchAfter(r, d, lcr, p);
    EnablesSurvive(r, Some(d), lcr, p);
  }

  /** A controller that takes the first write and then stays busy is left with DLAB set. */
  lemma BusyForeverCorrupts(tries: nat)
    requires tries > 0
    ensures var r, p := Regs(0x03, 13, 0, 0, 5, 0, 0), Pattern(n => n > 0, tries);
            var (r', outcome) := Configured(r, Some(Divisor(26, 0, 57692)), 0x03, p);
            outcome == Busy && Dlab(r') && r'.dlh == 5 && r'.ier == 0
  {
    var r, d := Regs(0x03, 13, 0, 0, 5, 0, 0), Divisor(26, 0, 57692);
    var p := Pattern(n => n > 0, tries);
    var r0 := Poke(r, HIGH_OR_IER, 0);
    assert TryLcr(r0, 0x03 | DLAB, p.busy, p.tries) == (PokeLcr(r0, 0x83, p.busy), true);
    var r1 := Programmed(r, d, 0x03, p).0;
    assert r1.lcr == 0x83 && r1.attempts == 1;
    TryLcrIff(r1, 0x03, p.busy, p.tries);
    var at := TryLcr(r1, 0x03, p.busy, p.tries).0;
    assert TryLcr(at, 0x83, p.busy, p.tries) == (PokeLcr(at, 0x83, p.busy), true);
    RolledBackIff(r, at, p);
  }

  // ----- how patient the driver is -----

  /** `n` successive LCR writes from the i-th on are ignored. */
  ghost predicate AllIgnored(busy: nat -> bool, i: nat, n: nat) {
    forall j :: i <= j < i + n ==> busy(j)
  }

  /** From the `start`-th LCR write on, `n` successive ones are ignored at some time. */
  ghost predicate EverIgnores(busy: nat -> bool, start: nat, n: nat) {
    exists i :: i >= start && AllIgnored(busy, i, n)
  }

  /** A write fails only against `tries` ignored attempts in a row. */
  lemma FailsWhenIgnored(r: Regs, value: bv8, busy: nat -> bool, tries: nat)
    requires tries > 0 && !TryLcr(r, value, busy, tries).1
    ensures AllIgnored(busy, r.attempts, tries)
  {
    TryLcrIff(r, value, busy, tries);
  }

  lemma {:induction false} AttemptsGrow(r: Regs, value: bv8, busy: nat -> bool, tries: nat)
    ensures TryLcr(r, value, busy, tries).0.attempts >= r.attempts
    decreases tries
  {
    if tries > 0 && PokeLcr(r, value, busy).lcr != value {
      var r1 := PokeLcr(r, value, busy);
      AttemptsGrow(r1.(resets := r1.resets + 1), value, busy, tries - 1);
    }
  }

  /** configure answers Busy only after `tries` successive ignored writes, and otherwise applies the divisor. */
  lemma BusyMeansIgnored(r: Regs, d: Divisor, lcr: bv8, p: Pattern)
    requires p.tries > 0
    ensures var outcome := Configured(r, Some(d), lcr, p).1;
            if outcome == Busy then EverIgnores(p.busy, r.attempts, p.tries) else outcome == Applied(d.actualBaud)
  {
    var m := Masked(r);
    var (r1, ok) := Programmed(r, d, lcr, p);
    AttemptsGrow(m, lcr | DLAB, p.busy, p.tries);
    if !TryLcr(m, lcr | DLAB, p.busy, p.tries).1 {
      FailsWhenIgnored(m, lcr | DLAB, p.busy, p.tries);
    } else if !TryLcr(r1, lcr, p.busy, p.tries).1 {
      FailsWhenIgnored(r1, lcr, p.busy, p.tries);
    }
  }

  /**
   * The outcome of a change on a controller that ignored writes as `busy` says: invalid
   * without a divisor, Busy only after `n` successive ignored writes, and else applied.
   */
  ghost predicate Patient(busy: nat -> bool, start: nat, n: nat, divisor: Option<Divisor>, outcome: Outcome) {
    match divisor
    case None => outcome == Invalid
    case Some(d) =>
      if outcome == Busy then EverIgnores(busy, start, n) else outcome == Applied(d.actualBaud)
  }

  lemma ConfiguredIsPatient(r: Regs, divisor: Option<Divisor>, lcr: bv8, p: Pattern)
    ensures p.tries > 0 ==> Patient(p.busy, r.attempts, p.tries, divisor, Configured(r, divisor, lcr, p).1)
  {
    if divisor.Some? && p.tries > 0 {
      BusyMeansIgnored(r, divisor.value, lcr, p);
    }
  }

  function FirstIgnored(n: nat): nat -> bool {
    i => i < n
  }

  /** With the driver's own number of tries: a needed write survives 999 ignored attempts and not 1000. */
  lemma ThousandTries(r: Regs, value: bv8, ignored: nat, tries: nat)
    requires tries == LCR_TRIES && r.lcr != value
    ensures TryLcr(r, value, FirstIgnored(r.attempts + ignored), tries).1 <==> ignored < 1000
  {
    var busy := FirstIgnored(r.attempts + ignored);
    TryLcrIff(r, value, busy, tries);
    assert !busy(r.attempts + ignored);
  }

  // ----- the driver's code -----

  class DwRegisters {
    var lcr: bv8
    var dll: nat
    var dlh: nat
    var dlf: nat
    var ier: nat
    var attempts: nat
    var resets: nat
    const p: Pattern

    ghost function View(): Regs
      reads this
    {
      Regs(lcr, dll, dlh, dlf, ier, attempts, resets)
    }

    constructor (r: Regs, busy: nat -> bool)
      ensures View() == r && p == Pattern(busy, 1000)
    {
      lcr, dll, dlh, dlf, ier, attempts, resets := r.lcr, r.dll, r.dlh, r.dlf, r.ier, r.attempts, r.resets;
      p := Pattern(busy, LCR_TRIES);
    }

    method Write32(value: nat, offset: nat)
      modifies this
      ensures View() == Poke(old(View()), offset, value)
    {
      var open := lcr & DLAB != 0;
      if offset == LOW {
        if open {
          dll := value;
        }
      } else if offset == HIGH_OR_IER {
        if open {
          dlh := value;
        } else {
          ier := value;
        }
      } else if offset == FRACTION {
        dlf := value;
      }
    }

    method Read32(offset: nat) returns (value: nat)
      ensures value == Peek(View(), offset)
    {
      var open := lcr & DLAB != 0;
      if offset == LOW {
        value := if open then dll else 0;
      } else if offset == HIGH_OR_IER {
        value := if open then dlh else ier;
      } else if offset == FRACTION {
        value := dlf;
      } else {
        value := 0;
      }
    }

    /** Bounded retries; an ignored write is followed by a FIFO reset. */
    method WriteLcr(value: bv8) returns (ok: bool)
      modifies this
      ensures (View(), ok) == TryLcr(old(View()), value, p.busy, p.tries)
    {
      var i := 0;
      while i < p.tries
        invariant 0 <= i <= p.tries
        invariant TryLcr(old(View()), value, p.busy, p.tries) == TryLcr(View(), value, p.busy, p.tries - i)
      {
        if !p.busy(attempts) {
          lcr := value;
        }
        attempts := attempts + 1;
        if lcr == value {
          return true;
        }
        resets := resets + 1;
        i := i + 1;
      }
      ok := false;
    }

    method WriteDivisor(low: nat, high: nat, fraction: nat)
      modifies this
      ensures View() == PokeDivisor(old(View()), low, high, fraction)
    {
      Write32(low, LOW);
      Write32(high, HIGH_OR_IER);
      Write32(fraction, FRACTION);
    }

    /** Restores divisor and framing after the last LCR write was refused. */
    method RollBack(oldLcr: bv8, oldLow: nat, oldHigh: nat, oldFraction: nat, ghost start: Regs)
      requires oldLcr == start.lcr & 0x7f
      requires oldLow == start.dll && oldHigh == Masked(start).dlh && oldFraction == start.dlf
      modifies this
      ensures View() == RolledBack(start, old(View()), p)
    {
      var reopened := WriteLcr(oldLcr | DLAB);
      if reopened {
        WriteDivisor(oldLow, oldHigh, oldFraction);
      }
      var _ := WriteLcr(oldLcr);
    }

    /** Opens DLAB, saves the divisor and writes the new one. */
    method Program(d: Divisor, lcr: bv8) returns (ok: bool, oldLow: nat, oldHigh: nat, oldFraction: nat)
      modifies this
      ensures (View(), ok) == Programmed(old(View()), d, lcr, p)
      ensures ok ==> oldLow == old(dll) && oldHigh == Masked(old(View())).dlh && oldFraction == old(dlf)
    {
      oldLow, oldHigh, oldFraction := 0, 0, 0;
      Write32(0, HIGH_OR_IER);
      ghost var start := View();
      ok := WriteLcr(lcr | DLAB);
      if ok {
        DlabBits(lcr);
        TryLcrIff(start, lcr | DLAB, p.busy, p.tries);
        oldLow := Read32(LOW);
        oldHigh := Read32(HIGH_OR_IER);
        oldFraction := Read32(FRACTION);
        WriteDivisor(d.integer % 256, d.integer / 256, d.fraction);
      }
    }

    method Configure(divisor: Option<Divisor>, lcr: bv8) returns (outcome: Outcome)
      modifies this
      ensures (View(), outcome) == Configured(old(View()), divisor, lcr, p)
      ensures p.tries == 1000 ==> Patient(p.busy, old(attempts), 1000, divisor, outcome)
    {
      ConfiguredIsPatient(View(), divisor, lcr, p);
      if divisor.None? {
        return Invalid;
      }
      var d := divisor.value;
      ghost var start := View();
      var oldLcr := this.lcr & 0x7f;
      var enables := Read32(HIGH_OR_IER);
      var ok, oldLow, oldHigh, oldFraction := Program(d, lcr);
      outcome := Busy;
      if !ok {
        var _ := WriteLcr(oldLcr);
      } else {
        var done := WriteLcr(lcr);
        if done {
          outcome := Applied(d.actualBaud);
        } else {
          RollBack(oldLcr, oldLow, oldHigh, oldFraction, start);
        }
      }
      Write32(enables, HIGH_OR_IER);
    }
  }
}
