// linux/drivers/rust_dw_uart/config.rs, baud_clock, as prepare_clock uses it twice:
// for a requested rate and, when a later change is rejected, for the rate that was
// reported. Both ask for the same input clock.

module ReaskedRate {
  import opened Arithmetic
  import opened BaudDivisor
  import opened Common

  /** The controller's fixed input clock. */
  const REFERENCE_RATE: nat := 24_000_000

  /** The input clock that is asked for at a rate. */
  function Wanted(baud: nat, bits: nat): nat {
    BaudClock(REFERENCE_RATE, baud, bits)
  }

  /** A multiple of `half` that is `half` times n / (2 half), rounded. */
  predicate Rounds(n: nat, half: nat, product: nat) {
    2 * product <= n + half < 2 * product + 2 * half
  }

  lemma RoundsIs(n: nat, half: nat)
    requires half > 0
    ensures Rounds(n, half, half * Rounded(n, 2 * half))
  {
    DivMod(n + half, 2 * half);
  }

  lemma RoundsUnique(n: nat, half: nat, q: nat)
    requires half > 0 && Rounds(n, half, half * q)
    ensures Rounded(n, 2 * half) == q
  {
    QuotientIs(n + half, 2 * half, q, n + half - 2 * (half * q));
  }

  /**
   * The divisor is the scaled clock over sixteen times the rate, rounded, and is accepted
   * exactly when its integer part fits sixteen bits and is not zero, and the rate it really
   * produces is within two percent.
   */
  lemma DivisorIff(clock: nat, baud: nat, bits: nat, fixed: nat, actual: nat)
    requires clock > 0 && baud > 0 && bits <= 16 && fixed > 0
    requires Rounds(clock * Pow2(bits), 8 * baud, 8 * baud * fixed)
    requires Rounds(clock * Pow2(bits), 8 * fixed, 8 * fixed * actual)
    ensures ComputeDivisor(clock, baud, bits) ==
            if Pow2(bits) <= fixed < 65536 * Pow2(bits) && AbsDiff(actual, baud) * 100 <= baud * 2
            then Some(Divisor(fixed / Pow2(bits), fixed % Pow2(bits), actual)) else None
  {
    var scale := Pow2(bits);
    assert Fixed(clock, baud, scale) == fixed by {
      RoundsUnique(Scaled(clock, scale), 8 * baud, fixed);
    }
    assert ActualBaud(clock, fixed, scale) == actual by {
      ActualIsRounded(clock, fixed, scale);
      RoundsUnique(Scaled(clock, scale), 8 * fixed, actual);
    }
  }

  lemma ActualIsRounded(clock: nat, fixed: nat, scale: nat)
    requires fixed > 0
    ensures ActualBaud(clock, fixed, scale) == Rounded(Scaled(clock, scale), 2 * (8 * fixed))
  {
    assert 2 * (8 * fixed) == 16 * fixed && 16 * fixed / 2 == 8 * fixed;
  }

  /** 24 MHz divides down to fifty baud and below: a divisor for at least fifty is at most 30000. */
  lemma DivisorAtMost(scale: nat, baud: nat, f: nat)
    requires scale > 0 && baud >= 50 && Rounds(REFERENCE_RATE * scale, 8 * baud, 8 * baud * f)
    ensures f <= 30000 * scale
  {
    assert 8 * baud * (30000 * scale + 1) == 240000 * (scale * baud) + 8 * baud;
    MulMonotone(scale, 50, baud);
    if f > 30000 * scale {
      MulMonotone(8 * baud, 30000 * scale + 1, f);
    }
  }

  /** And the rate it produces is at least fifty and at most a sixteenth of the clock. */
  lemma RateBetween(scale: nat, f: nat, a: nat)
    requires 0 < scale <= f <= 30000 * scale && Rounds(REFERENCE_RATE * scale, 8 * f, 8 * f * a)
    ensures 50 <= a <= 1_500_000
  {
    if a < 50 {
      MulMonotone(8 * f, a, 49);
    }
    if a > 1_500_000 {
      MulMonotone(8 * f, 1_500_001, a);
    }
  }

  /** Small divisors are found again from the rate they produce. */
  lemma SmallFoundAgain(scale: nat, f: nat, a: nat)
    requires 0 < f <= a && Rounds(REFERENCE_RATE * scale, 8 * f, 8 * f * a)
    ensures Rounded(REFERENCE_RATE * scale, 2 * (8 * a)) == f
  {
    assert 8 * f * a == 8 * a * f;
    RoundsUnique(REFERENCE_RATE * scale, 8 * a, f);
  }

  lemma Below(scale: nat, a: nat, f: nat)
    requires f < scale
    ensures 8 * a * f <= 8 * (scale * a) - 8 * a
  {
    assert 8 * a * (scale - 1) == 8 * (scale * a) - 8 * a;
    MulMonotone(8 * a, f, scale - 1);
  }

  lemma Beyond(scale: nat, a: nat, f: nat)
    requires f >= 65536 * scale
    ensures 8 * a * f >= 524288 * (scale * a)
  {
    assert 8 * a * (65536 * scale) == 524288 * (scale * a);
    MulMonotone(8 * a, 65536 * scale, f);
  }

  /** The divisor for the produced rate is in range. */
  lemma AgainInRange(scale: nat, a: nat, f: nat)
    requires scale > 0 && 50 <= a <= 1_500_000 && Rounds(REFERENCE_RATE * scale, 8 * a, 8 * a * f)
    ensures scale <= f < 65536 * scale
  {
    MulMonotone(scale, a, 1_500_000);
    MulMonotone(scale, 50, a);
    MulMonotone(a, 1, scale);
    if f < scale {
      Below(scale, a, f);
    }
    if f >= 65536 * scale {
      Beyond(scale, a, f);
    }
  }

  lemma Products(f': nat, a: nat, a': nat)
    ensures a' >= a + 2 ==> f' * a' >= a * f' + 2 * f'
    ensures a' + 2 <= a ==> f' * a' + 2 * f' <= a * f'
  {
    assert f' * (a + 2) == a * f' + 2 * f' && f' * (a' + 2) == f' * a' + 2 * f';
    if a' >= a + 2 {
      MulMonotone(f', a + 2, a');
    }
    if a' + 2 <= a {
      MulMonotone(f', a' + 2, a);
    }
  }

  /** A divisor that rounds well for a large divisor's rate is not much smaller. */
  lemma NotTooSmall(a: nat, f: nat, f': nat)
    requires 50 <= a < f && 2 * (a * f') + f + a > 2 * (f * a)
    ensures 3 * f' > a
  {
    assert a * (3 * f') == 3 * (a * f');
    assert (2 * a - 1) * f == 2 * (f * a) - f && (2 * a - 1) * a == 2 * (a * a) - a;
    MulMonotone(2 * a - 1, a, f);
    MulMonotone(a, 50, a);
    if 3 * f' <= a {
      MulMonotone(a, 3 * f', a);
    }
  }

  lemma MovesByOne(n: nat, f: nat, a: nat, f': nat, a': nat, p: nat, q: nat, r: nat)
    requires 50 <= a < f && p == f * a && q == a * f' && r == f' * a'
    requires Rounds(n, 8 * f, 8 * p) && Rounds(n, 8 * a, 8 * q) && Rounds(n, 8 * f', 8 * r)
    ensures AbsDiff(a', a) <= 1
  {
    NotTooSmall(a, f, f');
    Products(f', a, a');
  }

  /** Large divisors are missed by so little that the rate moves by one at most. */
  lemma LargeAgain(n: nat, f: nat, a: nat, f': nat, a': nat)
    requires 50 <= a < f
    requires Rounds(n, 8 * f, 8 * f * a) && Rounds(n, 8 * a, 8 * a * f') && Rounds(n, 8 * f', 8 * f' * a')
    ensures AbsDiff(a', a) <= 1
  {
    var p, q, r := f * a, a * f', f' * a';
    assert 8 * f * a == 8 * p && 8 * a * f' == 8 * q && 8 * f' * a' == 8 * r;
    MovesByOne(n, f, a, f', a', p, q, r);
  }

  /** A rate the reference clock produces is one it is accepted for. */
  lemma ReferenceAgain(baud: nat, bits: nat)
    requires baud >= 50 && ComputeDivisor(REFERENCE_RATE, baud, bits).Some?
    ensures ComputeDivisor(REFERENCE_RATE, ComputeDivisor(REFERENCE_RATE, baud, bits).value.actualBaud, bits).Some?
  {
    var scale := Pow2(bits);
    var n := Scaled(REFERENCE_RATE, scale);
    var f := Fixed(REFERENCE_RATE, baud, scale);
    RoundsIs(n, 8 * baud);
    DivisorAtMost(scale, baud, f);
    var a := ActualBaud(REFERENCE_RATE, f, scale);
    RoundsIs(n, 8 * f);
    RateBetween(scale, f, a);
    RoundsIs(n, 8 * a);
    var f' := Fixed(REFERENCE_RATE, a, scale);
    AgainInRange(scale, a, f');
    if f <= a {
      SmallFoundAgain(scale, f, a);
    } else {
      RoundsIs(n, 8 * f');
      LargeAgain(n, f, a, f', ActualBaud(REFERENCE_RATE, f', scale));
    }
  }

  /** The rate reported for an accepted change asks for the very clock the change was accepted with. */
  lemma SameClockAgain(baud: nat, bits: nat)
    requires 50 <= baud && 16 * baud < U32
    ensures match ComputeDivisor(Wanted(baud, bits), baud, bits)
            case None => true
            case Some(d) => Wanted(d.actualBaud, bits) == Wanted(baud, bits)
  {
    if ComputeDivisor(Wanted(baud, bits), baud, bits).Some? {
      if ComputeDivisor(REFERENCE_RATE, baud, bits).Some? {
        ReferenceAgain(baud, bits);
      } else {
        SixteenfoldIsExact(baud, bits);
      }
    }
  }
}
