// linux/drivers/rust_dw_uart/config.rs: the fractional baud-rate divisor and the
// line-control encoding.

module BaudDivisor {
  import opened Arithmetic
  import opened Common

  const U16: nat := 0x1_0000
  const U32: nat := 0x1_0000_0000
  const U64: nat := 0x1_0000_0000_0000_0000

  /** The widest fraction the driver accepts. */
  lemma ScaleBound(bits: nat)
    requires bits <= 16
    ensures 1 <= Pow2(bits) <= U16
  {
    Pow2Monotone(bits, 16);
    assert Pow2(4) == 16;
    assert Pow2(8) == 256;
    assert Pow2(12) == 4096;
    assert Pow2(16) == U16;
  }

  // ----- the computation -----

  datatype Divisor = Divisor(integer: nat, fraction: nat, actualBaud: nat)

  function AbsDiff(a: int, b: int): nat {
    if a >= b then a - b else b - a
  }

  function Scaled(clock: nat, scale: nat): nat {
    clock * scale
  }

  /** Quotient rounded to the nearest integer, halves upwards. */
  function Rounded(n: nat, d: nat): nat
    requires d > 0
  {
    DivMod(n + d / 2, d);
    (n + d / 2) / d
  }

  /** The fixed-point divisor for sixteen-fold oversampling. */
  function Fixed(clock: nat, baud: nat, scale: nat): nat
    requires baud > 0
  {
    Rounded(Scaled(clock, scale), 16 * baud)
  }

  /** The rate a fixed-point divisor really produces. */
  function ActualBaud(clock: nat, fixed: nat, scale: nat): nat
    requires fixed > 0
  {
    var n, d := Scaled(clock, scale) + 8 * fixed, 16 * fixed;
    DivMod(n, d);
    n / d
  }

  function ComputeDivisor(clock: nat, baud: nat, bits: nat): Option<Divisor> {
    if clock == 0 || baud == 0 || bits > 16 then None
    else
      var scale := Pow2(bits);
      var fixed := Fixed(clock, baud, scale);
      if fixed < scale || fixed >= 65536 * scale then None
      else
        var actual := ActualBaud(clock, fixed, scale);
        if AbsDiff(actual, baud) * 100 > baud * 2 then None
        else Some(Divisor(fixed / scale, fixed % scale, actual))
  }

  /** Chooses the reference clock when it divides well, else sixteen times the rate. */
  function BaudClock(reference: nat, baud: nat, bits: nat): nat {
    if ComputeDivisor(reference, baud, bits).Some? then reference else Min(baud * 16, U32 - 1)
  }

  // ----- rounding -----

  lemma NearestMultiple(x: int, y: int, n: nat, d: nat)
    requires x <= n + d / 2 < x + d
    requires y == x || y >= x + d || y <= x - d
    ensures AbsDiff(x, n) <= AbsDiff(y, n)
  {
  }

  /** A rounded quotient is as near to the exact one as any integer. */
  lemma RoundedIsNearest(n: nat, d: nat, k: int)
    requires d > 0
    ensures AbsDiff(d * Rounded(n, d), n) <= AbsDiff(d * k, n)
  {
    var q: int := Rounded(n, d);
    DivMod(n + d / 2, d);
    var x, y := d * q, d * k;
    if k > q {
      MulMonotone(d, q + 1, k);
      assert d * (q + 1) == x + d;
    } else if k < q {
      MulMonotone(d, k, q - 1);
      assert d * (q - 1) == x - d;
    }
    NearestMultiple(x, y, n, d);
  }

  // ----- the result -----

  /** The fixed-point value a pair of divisor registers stands for. */
  function Value(integer: nat, fraction: nat, bits: nat): nat {
    Pow2(bits) * integer + fraction
  }

  /** How far sixteen times `baud` times a fixed-point divisor is from the scaled clock. */
  function ClockError(fixed: nat, clock: nat, baud: nat, bits: nat): nat {
    AbsDiff(16 * baud * fixed, Scaled(clock, Pow2(bits)))
  }

  lemma ValueIsFixed(clock: nat, baud: nat, bits: nat)
    ensures match ComputeDivisor(clock, baud, bits)
            case None => true
            case Some(d) =>
              && Value(d.integer, d.fraction, bits) == Fixed(clock, baud, Pow2(bits))
              && 1 <= d.integer <= 65535 && d.fraction < Pow2(bits)
  {
    if ComputeDivisor(clock, baud, bits).Some? {
      var scale := Pow2(bits);
      var fixed := Fixed(clock, baud, scale);
      DivMod(fixed, scale);
      QuotientBelow(fixed, scale, 65536);
      QuotientAtLeast(fixed, scale);
    }
  }

  /** A returned divisor fits its registers and is the nearest representable one. */
  lemma DivisorIsNearest(clock: nat, baud: nat, bits: nat, integer: nat, fraction: nat)
    ensures match ComputeDivisor(clock, baud, bits)
            case None => true
            case Some(d) =>
              && 1 <= d.integer <= 65535
              && d.fraction < Pow2(bits)
              && ClockError(Value(d.integer, d.fraction, bits), clock, baud, bits)
                 <= ClockError(Value(integer, fraction, bits), clock, baud, bits)
  {
    if ComputeDivisor(clock, baud, bits).Some? {
      ValueIsFixed(clock, baud, bits);
      RoundedIsNearest(Scaled(clock, Pow2(bits)), 16 * baud, Value(integer, fraction, bits));
    }
  }

  /** The reported rate is the nearest integer to what the divisor produces, within two percent. */
  lemma ActualIsNearest(clock: nat, baud: nat, bits: nat, rate: nat)
    ensures match ComputeDivisor(clock, baud, bits)
            case None => true
            case Some(d) =>
              var fixed := Value(d.integer, d.fraction, bits);
              && AbsDiff(16 * fixed * d.actualBaud, Scaled(clock, Pow2(bits)))
                 <= AbsDiff(16 * fixed * rate, Scaled(clock, Pow2(bits)))
              && AbsDiff(d.actualBaud, baud) * 100 <= baud * 2
  {
    if ComputeDivisor(clock, baud, bits).Some? {
      ValueIsFixed(clock, baud, bits);
      var fixed := Fixed(clock, baud, Pow2(bits));
      assert (16 * fixed) / 2 == 8 * fixed;
      RoundedIsNearest(Scaled(clock, Pow2(bits)), 16 * fixed, rate);
    }
  }

  lemma ActualBounded(clock: nat, fixed: nat, scale: nat)
    requires 0 < scale <= fixed && clock < U32
    ensures ActualBaud(clock, fixed, scale) < U32
  {
    var n := Scaled(clock, scale) + 8 * fixed;
    MulMonotone(clock, scale, fixed);
    MulMonotone(fixed, clock, U32 - 1);
    assert clock * fixed == fixed * clock;
    assert fixed * (U32 - 1) + 8 * fixed < 16 * fixed * U32;
    QuotientBelow(n, 16 * fixed, U32);
  }

  /** No 64-bit intermediate overflows and both narrowing casts are lossless. */
  lemma NoOverflow(clock: nat, baud: nat, bits: nat)
    requires 0 < clock < U32 && 0 < baud < U32 && bits <= 16
    ensures var scale := Pow2(bits);
            var fixed := Fixed(clock, baud, scale);
            && Scaled(clock, scale) + 16 * baud / 2 < U64 && 16 * baud < U64
            && 65536 * scale <= U32
            && (scale <= fixed < 65536 * scale ==>
                  && Scaled(clock, scale) + 8 * fixed < U64 && 16 * fixed < U64
                  && fixed / scale < U16 && fixed % scale < U32
                  && ActualBaud(clock, fixed, scale) < U32
                  && AbsDiff(ActualBaud(clock, fixed, scale), baud) * 100 < U64)
  {
    var scale := Pow2(bits);
    var fixed := Fixed(clock, baud, scale);
    ScaleBound(bits);
    MulMonotone(clock, scale, U16);
    if scale <= fixed < 65536 * scale {
      DivMod(fixed, scale);
      QuotientBelow(fixed, scale, 65536);
      ActualBounded(clock, fixed, scale);
    }
  }

  /** Sixteen times the rate divides exactly, with divisor one and no error. */
  lemma SixteenfoldIsExact(baud: nat, bits: nat)
    requires 1 <= baud && bits <= 16
    ensures ComputeDivisor(16 * baud, baud, bits) == Some(Divisor(1, 0, baud))
  {
    var scale := Pow2(bits);
    var clock := 16 * baud;
    QuotientIs(Scaled(clock, scale) + clock / 2, clock, scale, clock / 2);
    assert Fixed(clock, baud, scale) == scale;
    assert Scaled(clock, scale) == 16 * scale * baud;
    QuotientIs(Scaled(clock, scale) + 8 * scale, 16 * scale, baud, 8 * scale);
    assert ActualBaud(clock, scale, scale) == baud;
    QuotientIs(scale, scale, 1, 0);
  }

  /** The chosen clock is accepted for every rate a 32-bit clock can oversample. */
  lemma BaudClockAccepted(reference: nat, baud: nat, bits: nat)
    requires 1 <= baud <= (U32 - 1) / 16 && bits <= 16
    ensures ComputeDivisor(BaudClock(reference, baud, bits), baud, bits).Some?
    ensures BaudClock(reference, baud, bits) < U32 || BaudClock(reference, baud, bits) == reference
  {
    SixteenfoldIsExact(baud, bits);
  }

  // ----- line control register -----

  function LineControl(bits: nat, twoStops: bool, parity: bool, odd: bool): bv8
  {
    WordLength(bits) | (if twoStops then 4 else 0) | (if parity then 8 else 0) | (if parity && !odd then 16 else 0)
  }

  function WordLength(bits: nat): bv8 {
    if bits <= 5 then 0 else if bits == 6 then 1 else if bits == 7 then 2 else 3
  }

  /** A 16550 decodes exactly the requested framing; break and divisor access stay clear. */
  lemma LineControlDecodes(bits: nat, twoStops: bool, parity: bool, odd: bool)
    requires 5 <= bits <= 8
    ensures var l := LineControl(bits, twoStops, parity, odd);
            && (l & 3) as nat + 5 == bits
            && (l & 4 != 0 <==> twoStops)
            && (l & 8 != 0 <==> parity)
            && (parity ==> (l & 16 != 0 <==> !odd))
            && l & 0xe0 == 0
  {
  }
}
