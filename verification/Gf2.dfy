// What the check value is: the remainder of a polynomial division over GF(2) by the
// generator of IEEE 802.3, clause 3.2.9, and nothing else. Neither the shift register
// nor its feedback word appears in the definition.

module Gf2 {
  /** A polynomial over GF(2): which powers of x it has. */
  type Poly = nat -> bool

  const ZERO: Poly := (i: nat) => false

  function Sum(a: Poly, b: Poly): Poly {
    (i: nat) => a(i) != b(i)
  }

  /** x times a polynomial. */
  function TimesX(a: Poly): Poly {
    (i: nat) => i > 0 && a(i - 1)
  }

  function Scaled(t: bool, a: Poly): Poly {
    (i: nat) => t && a(i)
  }

  ghost predicate Same(a: Poly, b: Poly) {
    forall i: nat :: a(i) == b(i)
  }

  ghost predicate DegreeBelow(a: Poly, n: nat) {
    forall i: nat :: i >= n ==> !a(i)
  }

  /** The product of the polynomial with coefficients `q`, highest first, and `g`. */
  function Product(q: seq<bool>, g: Poly): Poly {
    if q == [] then ZERO
    else Sum(TimesX(Product(q[..|q| - 1], g)), Scaled(q[|q| - 1], g))
  }

  /** `r` is what is left of `a` after taking out some multiple of `g`. */
  ghost predicate LeavesRemainder(a: Poly, g: Poly, r: Poly) {
    exists q: seq<bool> :: Same(a, Sum(Product(q, g), r))
  }

  // ----- remainders are unique -----

  function Zeros(n: nat): seq<bool> {
    seq(n, _ => false)
  }

  lemma {:induction false} LeadingZeros(n: nat, q: seq<bool>, g: Poly)
    ensures Same(Product(Zeros(n) + q, g), Product(q, g))
    decreases n + |q|
  {
    var p := Zeros(n) + q;
    if q != [] {
      assert p[..|p| - 1] == Zeros(n) + q[..|q| - 1];
      LeadingZeros(n, q[..|q| - 1], g);
    } else if n > 0 {
      assert p[..|p| - 1] == Zeros(n - 1) + [];
      LeadingZeros(n - 1, [], g);
    }
  }

  function Xor(a: seq<bool>, b: seq<bool>): (c: seq<bool>)
    requires |a| == |b|
    ensures |c| == |a|
  {
    seq(|a|, i requires 0 <= i < |a| => a[i] != b[i])
  }

  lemma {:induction false} ProductXor(a: seq<bool>, b: seq<bool>, g: Poly)
    requires |a| == |b|
    ensures Same(Product(Xor(a, b), g), Sum(Product(a, g), Product(b, g)))
    decreases |a|
  {
    if a != [] {
      var n := |a| - 1;
      assert Xor(a, b)[..n] == Xor(a[..n], b[..n]);
      ProductXor(a[..n], b[..n], g);
    }
  }

  /** `g` has degree `d`. */
  ghost predicate Degree(g: Poly, d: nat) {
    g(d) && DegreeBelow(g, d + 1)
  }

  /** A product has no higher power than its factors allow, and it has the highest one that they have. */
  lemma {:induction false} ProductDegree(q: seq<bool>, g: Poly, d: nat)
    requires Degree(g, d)
    ensures DegreeBelow(Product(q, g), d + |q|)
    ensures q != [] ==> Product(q, g)(d + |q| - 1) == q[0]
    decreases |q|
  {
    if q != [] {
      ProductDegree(q[..|q| - 1], g, d);
    }
  }

  /** A multiple of `g` of smaller degree is zero. */
  lemma {:induction false} SmallMultiple(q: seq<bool>, g: Poly, d: nat)
    requires Degree(g, d) && DegreeBelow(Product(q, g), d)
    ensures Same(Product(q, g), ZERO)
    decreases |q|
  {
    if q != [] {
      ProductDegree(q, g, d);
      assert !q[0];
      assert q == Zeros(1) + q[1..];
      LeadingZeros(1, q[1..], g);
      SmallMultiple(q[1..], g, d);
    }
  }

  lemma RemainderUnique(a: Poly, g: Poly, d: nat, r: Poly, s: Poly)
    requires Degree(g, d) && DegreeBelow(r, d) && DegreeBelow(s, d)
    requires LeavesRemainder(a, g, r) && LeavesRemainder(a, g, s)
    ensures Same(r, s)
  {
    var p :| Same(a, Sum(Product(p, g), r));
    var q :| Same(a, Sum(Product(q, g), s));
    var p', q' := Zeros(|q|) + p, Zeros(|p|) + q;
    LeadingZeros(|q|, p, g);
    LeadingZeros(|p|, q, g);
    ProductXor(p', q', g);
    var m := Product(Xor(p', q'), g);
    forall i: nat
      ensures m(i) == (r(i) != s(i))
    {
      assert a(i) == Sum(Product(p, g), r)(i) && a(i) == Sum(Product(q, g), s)(i);
      assert Product(p', g)(i) == Product(p, g)(i) && Product(q', g)(i) == Product(q, g)(i);
      assert m(i) == Sum(Product(p', g), Product(q', g))(i);
    }
    SmallMultiple(Xor(p', q'), g, d);
    forall i: nat
      ensures r(i) == s(i)
    {
      assert m(i) == ZERO(i);
    }
  }

  // ----- division one coefficient at a time -----

  /** If a = q g + r then x a + t x^d + (...) = (x q + s) g + r' whenever x r + t x^d = s g + r'. */
  lemma NextRemainder(a: Poly, a': Poly, g: Poly, r: Poly, r': Poly, low: Poly, s: bool)
    requires LeavesRemainder(a, g, r)
    requires Same(a', Sum(TimesX(a), low)) && Same(Sum(TimesX(r), low), Sum(Scaled(s, g), r'))
    ensures LeavesRemainder(a', g, r')
  {
    var q :| Same(a, Sum(Product(q, g), r));
    assert (q + [s])[..|q|] == q;
    var p, p' := Product(q, g), Product(q + [s], g);
    forall i: nat
      ensures a'(i) == Sum(p', r')(i)
    {
      NextCoefficient(a, a', p, p', g, r, r', low, s, i);
    }
    assert Same(a', Sum(Product(q + [s], g), r'));
  }

  lemma NextCoefficient(a: Poly, a': Poly, p: Poly, p': Poly, g: Poly, r: Poly, r': Poly, low: Poly, s: bool, i: nat)
    requires Same(a, Sum(p, r)) && p' == Sum(TimesX(p), Scaled(s, g))
    requires Same(a', Sum(TimesX(a), low)) && Same(Sum(TimesX(r), low), Sum(Scaled(s, g), r'))
    ensures a'(i) == Sum(p', r')(i)
  {
    assert a'(i) == Sum(TimesX(a), low)(i);
    assert Sum(TimesX(r), low)(i) == Sum(Scaled(s, g), r')(i);
    if i > 0 {
      assert a(i - 1) == Sum(p, r)(i - 1);
    }
  }
}

/** Shift registers over any words, so that the inductions below never look inside a bit vector. */
module ShiftRegister {
  import opened Folds
  import opened Gf2

  /** The low bit, the shift towards it, bitwise addition and the feedback word. */
  datatype Words<!T> = Words(low: T -> bool, shr: T -> T, plus: (T, T) -> T, feedback: T)

  /** Bit `k` of a word, counted from the lowest. */
  predicate Bit<T>(o: Words<T>, c: T, k: nat) {
    if k == 0 then o.low(c) else Bit(o, o.shr(c), k - 1)
  }

  /** The bits of a word from the lowest up. */
  function BitsOf<T>(o: Words<T>, c: T, n: nat): (bits: seq<bool>)
    ensures |bits| == n
  {
    if n == 0 then [] else [o.low(c)] + BitsOf(o, o.shr(c), n - 1)
  }

  /** A word of `w` bits as a polynomial, reflected: its lowest bit is the highest coefficient. */
  function Reflected<T>(o: Words<T>, c: T, w: nat): Poly {
    (i: nat) => i < w && Bit(o, c, w - 1 - i)
  }

  /** The register after one message bit. */
  function Step<T>(o: Words<T>, c: T, t: bool): T {
    if o.low(c) != t then o.plus(o.shr(c), o.feedback) else o.shr(c)
  }

  function FeedBits<T>(o: Words<T>, c: T, bits: seq<bool>): T {
    if bits == [] then c else Step(o, FeedBits(o, c, bits[..|bits| - 1]), bits[|bits| - 1])
  }

  /** The message, first bit highest, times x^w, with the `w` highest places inverted. */
  function Dividend(bits: seq<bool>, w: nat): Poly {
    (i: nat) => (i >= w && i - w < |bits| && bits[|bits| - 1 - (i - w)]) != (|bits| <= i < |bits| + w)
  }

  ghost predicate Linear<T(!new)>(o: Words<T>) {
    forall a, b :: o.low(o.plus(a, b)) == (o.low(a) != o.low(b)) && o.shr(o.plus(a, b)) == o.plus(o.shr(a), o.shr(b))
  }

  ghost predicate Abelian<T(!new)>(o: Words<T>) {
    forall a, b, c {:trigger o.plus(o.plus(a, b), c)} :: o.plus(o.plus(a, b), c) == o.plus(o.plus(a, c), b)
  }

  /** Words have `w` bits, and the feedback word holds the lower coefficients of `g`, reflected. */
  ghost predicate Divides<T(!new)>(o: Words<T>, g: Poly, w: nat) {
    && (forall c :: !Bit(o, c, w))
    && Degree(g, w)
    && (forall i: nat :: i < w ==> g(i) == Bit(o, o.feedback, w - 1 - i))
  }

  lemma {:induction false} BitPlus<T(!new)>(o: Words<T>, a: T, b: T, k: nat)
    requires Linear(o)
    ensures Bit(o, o.plus(a, b), k) == (Bit(o, a, k) != Bit(o, b, k))
    decreases k
  {
    if k > 0 {
      BitPlus(o, o.shr(a), o.shr(b), k - 1);
    }
  }

  /** One bit of the message: the register times x, plus the bit times x^w, reduced by `g` if x^w is left. */
  lemma StepReduces<T(!new)>(o: Words<T>, g: Poly, w: nat, c: T, t: bool)
    requires Linear(o) && Divides(o, g, w) && w > 0
    ensures Same(Sum(TimesX(Reflected(o, c, w)), Scaled(t, (i: nat) => i == w)),
                 Sum(Scaled(o.low(c) != t, g), Reflected(o, Step(o, c, t), w)))
  {
    var s, c' := o.low(c) != t, Step(o, c, t);
    var left := Sum(TimesX(Reflected(o, c, w)), Scaled(t, (i: nat) => i == w));
    forall i: nat
      ensures left(i) == Sum(Scaled(s, g), Reflected(o, c', w))(i)
    {
      if i < w {
        var k := w - 1 - i;
        BitPlus(o, o.shr(c), o.feedback, k);
        assert Bit(o, c', k) == (Bit(o, c, k + 1) != (s && Bit(o, o.feedback, k)));
      } else if i == w {
        assert Bit(o, c, 0) == o.low(c);
      }
    }
  }

  lemma NextDividend(bits: seq<bool>, t: bool, w: nat)
    ensures Same(Dividend(bits + [t], w), Sum(TimesX(Dividend(bits, w)), Scaled(t, (i: nat) => i == w)))
  {
  }

  /** The register holds the remainder of what has been fed into it. */
  lemma {:induction false} FeedDivides<T(!new)>(o: Words<T>, g: Poly, w: nat, start: T, bits: seq<bool>)
    requires Linear(o) && Divides(o, g, w) && w > 0
    requires forall k: nat :: k < w ==> Bit(o, start, k)
    ensures LeavesRemainder(Dividend(bits, w), g, Reflected(o, FeedBits(o, start, bits), w))
    decreases |bits|
  {
    if bits == [] {
      assert Same(Dividend([], w), Sum(Product([], g), Reflected(o, start, w)));
    } else {
      var front, t := bits[..|bits| - 1], bits[|bits| - 1];
      FeedDivides(o, g, w, start, front);
      var c := FeedBits(o, start, front);
      assert bits == front + [t];
      NextDividend(front, t, w);
      StepReduces(o, g, w, c, t);
      NextRemainder(Dividend(front, w), Dividend(bits, w), g, Reflected(o, c, w), Reflected(o, Step(o, c, t), w),
                    Scaled(t, (i: nat) => i == w), o.low(c) != t);
    }
  }

  lemma {:induction false} FeedBitsAppend<T>(o: Words<T>, c: T, a: seq<bool>, b: seq<bool>)
    ensures FeedBits(o, c, a + b) == FeedBits(o, FeedBits(o, c, a), b)
    decreases |b|
  {
    if b == [] {
      assert a + b == a;
    } else {
      var n := |b| - 1;
      assert (a + b)[..|a + b| - 1] == a + b[..n];
      FeedBitsAppend(o, c, a, b[..n]);
    }
  }

  /** Adding a word first and then shifting is feeding its bits, lowest first. */
  lemma {:induction false} ShiftFeeds<T(!new)>(o: Words<T>, f: T -> T, c: T, v: T, n: nat)
    requires Linear(o) && Abelian(o) && forall x :: f(x) == Step(o, x, false)
    ensures Iterate(f, o.plus(c, v), n) == o.plus(FeedBits(o, c, BitsOf(o, v, n)), Iterate(o.shr, v, n))
    decreases n
  {
    if n > 0 {
      var t := o.low(v);
      var c' := Step(o, c, t);
      assert f(o.plus(c, v)) == o.plus(c', o.shr(v));
      ShiftFeeds(o, f, c', o.shr(v), n - 1);
      assert FeedBits(o, c, [t]) == c' by {
        assert [t][..0] == [];
      }
      FeedBitsAppend(o, c, [t], BitsOf(o, o.shr(v), n - 1));
    }
  }
}

module CrcRemainder {
  import opened Arithmetic
  import opened Common
  import opened Crc
  import opened Folds
  import opened Gf2
  import Register = ShiftRegister

  /** The exponents of the generator. */
  const EXPONENTS: set<nat> := {32, 26, 23, 22, 16, 12, 11, 10, 8, 7, 5, 4, 2, 1, 0}

  const GENERATOR: Poly := (i: nat) => i in EXPONENTS

  predicate Low(c: bv32) {
    c & 1 == 1
  }

  function Shr(c: bv32): bv32 {
    c >> 1
  }

  /** Bit `k` of a word, counted from the least significant. */
  predicate Bit(c: bv32, k: nat) {
    if k == 0 then Low(c) else Bit(Shr(c), k - 1)
  }

  /** A word as a polynomial, reflected: its least significant bit is the highest coefficient. */
  function Reflected(c: bv32): Poly {
    (i: nat) => i < 32 && Bit(c, 31 - i)
  }

  /** Bit `i` of a message in the order of sending. */
  predicate SentBit(data: seq<Byte>, i: nat)
    requires i < 8 * |data|
  {
    Bit(data[i / 8] as bv32, i % 8)
  }

  /** The bits of a message in the order in which they are sent: each byte from its least significant bit up. */
  function MessageBits(data: seq<Byte>): (bits: seq<bool>)
    ensures |bits| == 8 * |data|
  {
    seq(8 * |data|, i requires 0 <= i < 8 * |data| => SentBit(data, i))
  }

  /**
   * The message, first bit highest, times x^32, with the first 32 places inverted: in a
   * message of at least four bytes these are its own first 32 bits.
   */
  function Dividend(bits: seq<bool>): Poly {
    (i: nat) => (i >= 32 && i - 32 < |bits| && bits[|bits| - 1 - (i - 32)]) != (|bits| <= i < |bits| + 32)
  }

  const WORDS: Register.Words<bv32> := Register.Words(Low, Shr, Plus, POLYNOMIAL)

  // ----- the program's words obey the laws of the register -----

  lemma LowPlus(a: bv32, b: bv32)
    ensures Low(Plus(a, b)) == (Low(a) != Low(b))
  {
  }

  lemma ShrPlus(a: bv32, b: bv32)
    ensures Shr(Plus(a, b)) == Plus(Shr(a), Shr(b))
  {
  }

  lemma {:induction false} SameBit(c: bv32, k: nat)
    ensures Register.Bit(WORDS, c, k) == Bit(c, k)
    decreases k
  {
    if k > 0 {
      SameBit(Shr(c), k - 1);
    }
  }

  lemma WordsLinear()
    ensures Register.Linear(WORDS) && Register.Abelian(WORDS)
  {
    forall a, b
      ensures Low(Plus(a, b)) == (Low(a) != Low(b)) && Shr(Plus(a, b)) == Plus(Shr(a), Shr(b))
    {
      LowPlus(a, b);
      ShrPlus(a, b);
    }
    forall a, b, c {:trigger Plus(Plus(a, b), c)}
      ensures Plus(Plus(a, b), c) == Plus(Plus(a, c), b)
    {
      PlusAssociative(a, b, c);
      PlusAssociative(a, c, b);
      PlusCommutative(b, c);
    }
  }

  /** The four lowest bits of a word, and what is left above them. */
  lemma Digit(c: bv32, d: bv32, k: nat, a0: bool, a1: bool, a2: bool, a3: bool)
    requires Shr(Shr(Shr(Shr(c)))) == d
    requires Low(c) == a0 && Low(Shr(c)) == a1 && Low(Shr(Shr(c))) == a2 && Low(Shr(Shr(Shr(c)))) == a3
    ensures Bit(c, k) == if k == 0 then a0 else if k == 1 then a1 else if k == 2 then a2 else if k == 3 then a3
                         else Bit(d, k - 4)
  {
    var c1, c2, c3 := Shr(c), Shr(Shr(c)), Shr(Shr(Shr(c)));
    if k >= 1 {
      assert Bit(c, k) == Bit(c1, k - 1);
    }
    if k >= 2 {
      assert Bit(c1, k - 1) == Bit(c2, k - 2);
    }
    if k >= 3 {
      assert Bit(c2, k - 2) == Bit(c3, k - 3);
    }
  }

  lemma AllOnesBit(k: nat)
    requires k < 32
    ensures Bit(ALL_ONES, k)
  {
    Digit(0xffffffff, 0x0fffffff, k, true, true, true, true);
    if k >= 4 {
      Digit(0x0fffffff, 0x00ffffff, k - 4, true, true, true, true);
    }
    if k >= 8 {
      Digit(0x00ffffff, 0x000fffff, k - 8, true, true, true, true);
    }
    if k >= 12 {
      Digit(0x000fffff, 0x0000ffff, k - 12, true, true, true, true);
    }
    if k >= 16 {
      Digit(0x0000ffff, 0x00000fff, k - 16, true, true, true, true);
    }
    if k >= 20 {
      Digit(0x00000fff, 0x000000ff, k - 20, true, true, true, true);
    }
    if k >= 24 {
      Digit(0x000000ff, 0x0000000f, k - 24, true, true, true, true);
    }
    if k >= 28 {
      Digit(0x0000000f, 0x00000000, k - 28, true, true, true, true);
    }
  }

  /** The feedback word holds the generator's lower coefficients, reflected. */
  lemma PolynomialBit(k: nat)
    requires k < 32
    ensures Bit(POLYNOMIAL, k) == (31 - k in EXPONENTS)
  {
    Digit(0xedb88320, 0x0edb8832, k, false, false, false, false);
    if k >= 4 {
      Digit(0x0edb8832, 0x00edb883, k - 4, false, true, false, false);
    }
    if k >= 8 {
      Digit(0x00edb883, 0x000edb88, k - 8, true, true, false, false);
    }
    if k >= 12 {
      Digit(0x000edb88, 0x0000edb8, k - 12, false, false, false, true);
    }
    if k >= 16 {
      Digit(0x0000edb8, 0x00000edb, k - 16, false, false, false, true);
    }
    if k >= 20 {
      Digit(0x00000edb, 0x000000ed, k - 20, true, true, false, true);
    }
    if k >= 24 {
      Digit(0x000000ed, 0x0000000e, k - 24, true, false, true, true);
    }
    if k >= 28 {
      Digit(0x0000000e, 0x00000000, k - 28, false, true, true, true);
    }
  }

  // ----- words have 32 bits and bytes have 8 -----

  function FourLess(c: bv32): bv32 {
    Shr(Shr(Shr(Shr(c))))
  }

  lemma FourMonotone(c: bv32, m: bv32)
    requires c <= m
    ensures FourLess(c) <= FourLess(m)
  {
  }

  lemma BitFour(c: bv32, k: nat)
    requires k >= 4
    ensures Bit(c, k) == Bit(FourLess(c), k - 4)
  {
    assert Bit(c, k) == Bit(Shr(c), k - 1) == Bit(Shr(Shr(c)), k - 2) == Bit(Shr(Shr(Shr(c))), k - 3);
  }

  lemma FourBelow(c: bv32, m: bv32, l: bv32, k: nat)
    requires c <= m && FourLess(m) == l && k >= 4
    ensures FourLess(c) <= l && Bit(c, k) == Bit(FourLess(c), k - 4)
  {
    FourMonotone(c, m);
    BitFour(c, k);
  }

  lemma ZeroBit(c: bv32)
    requires c <= 0
    ensures c == 0 && !Bit(c, 0)
  {
  }

  lemma NoBitAbove(c: bv32)
    ensures !Bit(c, 32)
  {
    FourBelow(c, 0xffffffff, 0x0fffffff, 32);
    var c1 := FourLess(c);
    FourBelow(c1, 0x0fffffff, 0x00ffffff, 28);
    var c2 := FourLess(c1);
    FourBelow(c2, 0x00ffffff, 0x000fffff, 24);
    var c3 := FourLess(c2);
    FourBelow(c3, 0x000fffff, 0x0000ffff, 20);
    var c4 := FourLess(c3);
    FourBelow(c4, 0x0000ffff, 0x00000fff, 16);
    var c5 := FourLess(c4);
    FourBelow(c5, 0x00000fff, 0x000000ff, 12);
    var c6 := FourLess(c5);
    FourBelow(c6, 0x000000ff, 0x0000000f, 8);
    var c7 := FourLess(c6);
    FourBelow(c7, 0x0000000f, 0x00000000, 4);
    var c8 := FourLess(c7);
    ZeroBit(c8);
  }

  lemma ByteEmptied(b: Byte)
    ensures FourLess(FourLess(b as bv32)) == 0
  {
    var v := b as bv32;
    assert v <= 0xff;
    FourBelow(v, 0xff, 0xf, 8);
    FourBelow(FourLess(v), 0xf, 0, 4);
    ZeroBit(FourLess(FourLess(v)));
  }

  lemma ShiftedByte(b: Byte)
    ensures Iterate(Shr, b as bv32, 8) == 0
  {
    ByteEmptied(b);
  }

  lemma {:induction false} SameBits(c: bv32, n: nat, k: nat)
    requires k < n
    ensures Register.BitsOf(WORDS, c, n)[k] == Bit(c, k)
    decreases n
  {
    if k > 0 {
      SameBits(Shr(c), n - 1, k - 1);
    }
  }

  lemma BitStepIsStep(c: bv32)
    ensures BitStep(c) == Register.Step(WORDS, c, false)
  {
  }

  /** One byte of the program's loop feeds the byte's eight bits, lowest first. */
  lemma ByteFeeds(c: bv32, b: Byte)
    ensures ByteStep(c, b) == Register.FeedBits(WORDS, c, Register.BitsOf(WORDS, b as bv32, 8))
  {
    WordsLinear();
    forall x
      ensures BitStep(x) == Register.Step(WORDS, x, false)
    {
      BitStepIsStep(x);
    }
    Register.ShiftFeeds(WORDS, BitStep, c, b as bv32, 8);
    ShiftedByte(b);
    PlusNone(Register.FeedBits(WORDS, c, Register.BitsOf(WORDS, b as bv32, 8)));
  }

  lemma NextByte(data: seq<Byte>, b: Byte)
    ensures MessageBits(data + [b]) == MessageBits(data) + Register.BitsOf(WORDS, b as bv32, 8)
  {
    var all, bits := MessageBits(data + [b]), Register.BitsOf(WORDS, b as bv32, 8);
    forall i | 0 <= i < |all|
      ensures all[i] == (MessageBits(data) + bits)[i]
    {
      if i < 8 * |data| {
        QuotientBelow(i, 8, |data|);
      } else {
        QuotientIs(i, 8, |data|, i - 8 * |data|);
        SameBits(b as bv32, 8, i - 8 * |data|);
      }
    }
  }

  lemma {:induction false} FeedIsFeedBits(data: seq<Byte>)
    ensures Feed(ALL_ONES, data) == Register.FeedBits(WORDS, ALL_ONES, MessageBits(data))
    decreases |data|
  {
    if data != [] {
      var front, b := data[..|data| - 1], data[|data| - 1];
      assert data == front + [b];
      FeedIsFeedBits(front);
      FoldAppend(ByteStep, ALL_ONES, front, [b]);
      assert Fold(ByteStep, Feed(ALL_ONES, front), [b]) == ByteStep(Feed(ALL_ONES, front), b) by {
        assert [b][1..] == [];
      }
      ByteFeeds(Feed(ALL_ONES, front), b);
      NextByte(front, b);
      Register.FeedBitsAppend(WORDS, ALL_ONES, MessageBits(front), Register.BitsOf(WORDS, b as bv32, 8));
    }
  }

  // ----- the check value -----

  lemma GeneratorDegree()
    ensures Degree(GENERATOR, 32)
  {
  }

  lemma WordsDivide()
    ensures Register.Divides(WORDS, GENERATOR, 32)
  {
    GeneratorDegree();
    forall c
      ensures !Register.Bit(WORDS, c, 32)
    {
      SameBit(c, 32);
      NoBitAbove(c);
    }
    forall i: nat | i < 32
      ensures GENERATOR(i) == Register.Bit(WORDS, POLYNOMIAL, 31 - i)
    {
      SameBit(POLYNOMIAL, 31 - i);
      PolynomialBit(31 - i);
    }
  }

  lemma SameReflected(c: bv32)
    ensures Same(Reflected(c), Register.Reflected(WORDS, c, 32))
  {
    forall i: nat
      ensures Reflected(c)(i) == Register.Reflected(WORDS, c, 32)(i)
    {
      if i < 32 {
        SameBit(c, 31 - i);
      }
    }
  }

  lemma SameRemainder(a: Poly, b: Poly, g: Poly, r: Poly, s: Poly)
    requires LeavesRemainder(a, g, r) && Same(a, b) && Same(r, s)
    ensures LeavesRemainder(b, g, s)
  {
    var q :| Same(a, Sum(Product(q, g), r));
    forall i: nat
      ensures b(i) == Sum(Product(q, g), s)(i)
    {
      assert a(i) == Sum(Product(q, g), r)(i);
    }
    assert Same(b, Sum(Product(q, g), s));
  }

  lemma NotTwice32(c: bv32)
    ensures !!c == c
  {
  }

  /** The register, without the final inversion, is a remainder of the message. */
  lemma RegisterIsRemainder(data: seq<Byte>)
    ensures LeavesRemainder(Dividend(MessageBits(data)), GENERATOR, Reflected(!Crc32(data)))
  {
    var bits := MessageBits(data);
    WordsLinear();
    WordsDivide();
    forall k: nat | k < 32
      ensures Register.Bit(WORDS, ALL_ONES, k)
    {
      SameBit(ALL_ONES, k);
      AllOnesBit(k);
    }
    Register.FeedDivides(WORDS, GENERATOR, 32, ALL_ONES, bits);
    FeedIsFeedBits(data);
    var c := Feed(ALL_ONES, data);
    NotTwice32(c);
    SameReflected(c);
    SameRemainder(Register.Dividend(bits, 32), Dividend(bits), GENERATOR,
                  Register.Reflected(WORDS, c, 32), Reflected(c));
  }

  lemma {:induction false} BitDiffers(a: bv32, b: bv32, k: nat)
    ensures Bit(Plus(a, b), k) == (Bit(a, k) != Bit(b, k))
  {
    WordsLinear();
    Register.BitPlus(WORDS, a, b, k);
    SameBit(Plus(a, b), k);
    SameBit(a, k);
    SameBit(b, k);
  }

  lemma NoDigit(c: bv32)
    requires FourLess(c) == 0 && !Low(c) && !Low(Shr(c)) && !Low(Shr(Shr(c))) && !Low(Shr(Shr(Shr(c))))
    ensures c == 0
  {
  }

  lemma LowFour(c: bv32)
    ensures Bit(c, 0) == Low(c) && Bit(c, 1) == Low(Shr(c)) && Bit(c, 2) == Low(Shr(Shr(c)))
    ensures Bit(c, 3) == Low(Shr(Shr(Shr(c))))
  {
    assert Bit(c, 1) == Bit(Shr(c), 0);
    assert Bit(c, 2) == Bit(Shr(c), 1) == Bit(Shr(Shr(c)), 0);
    assert Bit(c, 3) == Bit(Shr(c), 2) == Bit(Shr(Shr(c)), 1) == Bit(Shr(Shr(Shr(c))), 0);
  }

  /** A word none of whose lowest 4 n bits is set, and that is empty above them, is zero. */
  lemma {:induction false} NoBits(c: bv32, n: nat)
    requires forall k: nat :: k < 4 * n ==> !Bit(c, k)
    requires Iterate(FourLess, c, n) == 0
    ensures c == 0
    decreases n
  {
    if n > 0 {
      forall k: nat | k < 4 * (n - 1)
        ensures !Bit(FourLess(c), k)
      {
        BitFour(c, k + 4);
      }
      NoBits(FourLess(c), n - 1);
      LowFour(c);
      NoDigit(c);
    }
  }

  lemma EightDigits(c: bv32, n: nat)
    requires n == 8
    ensures Iterate(FourLess, c, n) == 0
  {
    FourMonotone(c, 0xffffffff);
    var c1 := FourLess(c);
    FourMonotone(c1, 0x0fffffff);
    var c2 := FourLess(c1);
    FourMonotone(c2, 0x00ffffff);
    var c3 := FourLess(c2);
    FourMonotone(c3, 0x000fffff);
    var c4 := FourLess(c3);
    FourMonotone(c4, 0x0000ffff);
    var c5 := FourLess(c4);
    FourMonotone(c5, 0x00000fff);
    var c6 := FourLess(c5);
    FourMonotone(c6, 0x000000ff);
    var c7 := FourLess(c6);
    FourMonotone(c7, 0x0000000f);
    var c8 := FourLess(c7);
    ZeroBit(c8);
    assert Iterate(FourLess, c, 8) == Iterate(FourLess, c4, 4) == c8;
  }

  lemma SameWord(a: bv32, b: bv32)
    requires forall k: nat :: k < 32 ==> Bit(a, k) == Bit(b, k)
    ensures a == b
  {
    var d := Plus(a, b);
    forall k: nat | k < 32
      ensures !Bit(d, k)
    {
      BitDiffers(a, b, k);
    }
    EightDigits(d, 8);
    NoBits(d, 8);
    PlusZero(a, b);
  }

  lemma SameReflection(a: bv32, b: bv32)
    requires Same(Reflected(a), Reflected(b))
    ensures a == b
  {
    forall k: nat | k < 32
      ensures Bit(a, k) == Bit(b, k)
    {
      assert Reflected(a)(31 - k) == Reflected(b)(31 - k);
    }
    SameWord(a, b);
  }

  lemma NotDiffers(a: bv32, b: bv32)
    ensures !a == !b ==> a == b
  {
  }

  lemma RemainderIsWord(a: Poly, b: bv32, c: bv32)
    requires LeavesRemainder(a, GENERATOR, Reflected(b)) && LeavesRemainder(a, GENERATOR, Reflected(c))
    ensures b == c
  {
    GeneratorDegree();
    RemainderUnique(a, GENERATOR, 32, Reflected(b), Reflected(c));
    SameReflection(b, c);
  }

  /**
   * CRC-32 is the complement of the reflected remainder that the generator leaves of the
   * message times x^32 with its first 32 places inverted, and no other word is.
   */
  lemma Crc32IsRemainder(data: seq<Byte>, c: bv32)
    ensures c == Crc32(data) <==> LeavesRemainder(Dividend(MessageBits(data)), GENERATOR, Reflected(!c))
  {
    RegisterIsRemainder(data);
    if LeavesRemainder(Dividend(MessageBits(data)), GENERATOR, Reflected(!c)) {
      RemainderIsWord(Dividend(MessageBits(data)), !c, !Crc32(data));
      NotDiffers(c, Crc32(data));
    }
  }

  // ----- the published check value -----

  lemma KnownByte(c: bv32, b: Byte, d: bv32)
    requires ByteStep(c, b) == d
    ensures forall rest :: Feed(c, [b] + rest) == Feed(d, rest)
  {
    forall rest
      ensures Feed(c, [b] + rest) == Feed(d, rest)
    {
      assert ([b] + rest)[0] == b && ([b] + rest)[1..] == rest;
    }
  }

  /** "123456789" */
  const DIGITS: seq<Byte> := [0x31, 0x32, 0x33, 0x34, 0x35, 0x36, 0x37, 0x38, 0x39]

  lemma KnownAnswer()
    ensures Crc32(DIGITS) == 0xcbf4_3926
  {
    KnownByte(0xffffffff, 0x31, 0x7c231048);
    KnownByte(0x7c231048, 0x32, 0xb0acbb32);
    KnownByte(0xb0acbb32, 0x33, 0x77b79c2d);
    KnownByte(0x77b79c2d, 0x34, 0x641c1f5c);
    KnownByte(0x641c1f5c, 0x35, 0x340ac5e3);
    KnownByte(0x340ac5e3, 0x36, 0xf68d2c9e);
    KnownByte(0xf68d2c9e, 0x37, 0xaffc9660);
    KnownByte(0xaffc9660, 0x38, 0x651f2550);
    KnownByte(0x651f2550, 0x39, 0x340bc6d9);
  }
}
