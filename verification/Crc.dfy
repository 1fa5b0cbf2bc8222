// app/rs485-test/src/lib.rs, crc32: the reflected IEEE CRC-32 (clause 3.2.9 of
// IEEE 802.3; the algorithm of section 8 of RFC 1952), its linearity and its
// detection of bursts.

module Folds {
  import opened Common

  // Iteration and folding over an arbitrary register type, so that the inductive
  // arguments below never look inside a bit vector.

  function Iterate<T>(f: T -> T, x: T, n: nat): T
    decreases n
  {
    if n == 0 then x else Iterate(f, f(x), n - 1)
  }

  function Fold<T>(f: (T, Byte) -> T, x: T, data: seq<Byte>): T
    decreases |data|
  {
    if data == [] then x else Fold(f, f(x, data[0]), data[1..])
  }

  function Xor(a: seq<Byte>, b: seq<Byte>): seq<Byte>
    requires |a| == |b|
  {
    seq(|a|, i requires 0 <= i < |a| => a[i] ^ b[i])
  }

  lemma XorSplit(a: seq<Byte>, b: seq<Byte>, n: nat)
    requires |a| == |b| && n <= |a|
    ensures Xor(a, b) == Xor(a[..n], b[..n]) + Xor(a[n..], b[n..])
  {
  }

  lemma {:induction false} IterateLinear<T(!new)>(f: T -> T, plus: (T, T) -> T, a: T, b: T, n: nat)
    requires forall x, y :: f(plus(x, y)) == plus(f(x), f(y))
    ensures Iterate(f, plus(a, b), n) == plus(Iterate(f, a, n), Iterate(f, b, n))
    decreases n
  {
    if n > 0 {
      IterateLinear(f, plus, f(a), f(b), n - 1);
    }
  }

  lemma {:induction false} IterateZero<T(!new)>(f: T -> T, zero: T, x: T, n: nat)
    requires forall y :: f(y) == zero <==> y == zero
    ensures Iterate(f, x, n) == zero <==> x == zero
    decreases n
  {
    if n > 0 {
      IterateZero(f, zero, f(x), n - 1);
    }
  }

  lemma {:induction false} FoldAppend<T>(f: (T, Byte) -> T, x: T, a: seq<Byte>, b: seq<Byte>)
    ensures Fold(f, x, a + b) == Fold(f, Fold(f, x, a), b)
    decreases |a|
  {
    if a == [] {
      assert a + b == b;
    } else {
      assert (a + b)[1..] == a[1..] + b;
      FoldAppend(f, f(x, a[0]), a[1..], b);
    }
  }

  lemma {:induction false} FoldLinear<T(!new)>(
      f: (T, Byte) -> T, plus: (T, T) -> T, x: T, y: T, a: seq<Byte>, b: seq<Byte>)
    requires |a| == |b|
    requires forall u, v, s: Byte, t: Byte :: f(plus(u, v), s ^ t) == plus(f(u, s), f(v, t))
    ensures Fold(f, plus(x, y), Xor(a, b)) == plus(Fold(f, x, a), Fold(f, y, b))
    decreases |a|
  {
    if a != [] {
      assert Xor(a, b)[1..] == Xor(a[1..], b[1..]);
      FoldLinear(f, plus, f(x, a[0]), f(y, b[0]), a[1..], b[1..]);
    }
  }

  lemma {:induction false} FoldZeros<T(!new)>(f: (T, Byte) -> T, zero: T, x: T, data: seq<Byte>)
    requires forall y :: f(y, 0) == zero <==> y == zero
    requires forall i :: 0 <= i < |data| ==> data[i] == 0
    ensures Fold(f, x, data) == zero <==> x == zero
    decreases |data|
  {
    if data != [] {
      FoldZeros(f, zero, f(x, data[0]), data[1..]);
    }
  }

  /** Absorbing `b` reaches `there` exactly from `here`. */
  ghost predicate Leads<T(!new)>(f: (T, Byte) -> T, b: Byte, here: T, there: T) {
    forall y :: f(y, b) == there <==> y == here
  }

  /** Four steps reach the last of five registers exactly from the first. */
  lemma FoldFour<T(!new)>(f: (T, Byte) -> T, b: seq<Byte>, v0: T, v1: T, v2: T, v3: T, v4: T, x: T)
    requires |b| == 4
    requires Leads(f, b[0], v0, v1) && Leads(f, b[1], v1, v2) && Leads(f, b[2], v2, v3) && Leads(f, b[3], v3, v4)
    ensures Fold(f, x, b) == v4 <==> x == v0
  {
    var x1 := f(x, b[0]);
    var x2 := f(x1, b[1]);
    var x3 := f(x2, b[2]);
    assert Fold(f, x, b) == Fold(f, x1, b[1..]) == Fold(f, x2, b[1..][1..]);
    assert b[1..][1..] == [b[2], b[3]] && [b[2], b[3]][1..] == [b[3]];
    assert Fold(f, x3, [b[3]]) == Fold(f, f(x3, b[3]), [b[3]][1..]) == f(x3, b[3]);
  }
}

/**
 * Burst detection for any linear check: `step` absorbs a byte, `plus` adds two
 * registers, `flip` is the final inversion and `word` reads four bytes.
 */
module LinearCheck {
  import opened Common
  import opened Folds

  datatype Check<!T> = Check(
    step: (T, Byte) -> T,
    plus: (T, T) -> T,
    zero: T,
    start: T,
    flip: T -> T,
    word: seq<Byte> -> T)

  ghost predicate Linear<T(!new)>(c: Check<T>) {
    && (forall u, v, s: Byte, t: Byte :: c.step(c.plus(u, v), s ^ t) == c.plus(c.step(u, s), c.step(v, t)))
    && (forall y :: c.step(y, 0) == c.zero <==> y == c.zero)
    && c.plus(c.start, c.start) == c.zero
    && (forall u, v :: c.plus(c.flip(u), c.flip(v)) == c.plus(u, v))
  }

  ghost predicate Reads<T(!new)>(c: Check<T>) {
    && (forall x, w: seq<Byte> :: |w| == 4 ==> (Fold(c.step, x, w) == c.zero <==> x == c.word(w)))
    && (forall v: seq<Byte>, w: seq<Byte> :: |v| == 4 && |w| == 4 ==> c.word(Xor(v, w)) == c.plus(c.word(v), c.word(w)))
    && (forall w: seq<Byte> :: |w| == 4 && c.word(w) == c.zero ==> w == [0, 0, 0, 0])
  }

  /** A message followed by its own check value. */
  ghost predicate Checked<T>(c: Check<T>, f: seq<Byte>) {
    |f| >= 4 && c.flip(Fold(c.step, c.start, f[..|f| - 4])) == c.word(f[|f| - 4..])
  }

  /** The difference of two checked messages drives the register from zero to zero. */
  lemma CheckedDifference<T(!new)>(c: Check<T>, f: seq<Byte>, g: seq<Byte>)
    requires Linear(c) && Reads(c) && Checked(c, f) && Checked(c, g) && |f| == |g|
    ensures Fold(c.step, c.zero, Xor(f, g)) == c.zero
  {
    var n := |f| - 4;
    DifferenceOfParts(c, f[..n], f[n..], g[..n], g[n..]);
    XorSplit(f, g, n);
  }

  lemma DifferenceOfParts<T(!new)>(c: Check<T>, f: seq<Byte>, x: seq<Byte>, g: seq<Byte>, y: seq<Byte>)
    requires Linear(c) && Reads(c) && |f| == |g| && |x| == |y| == 4
    requires c.flip(Fold(c.step, c.start, f)) == c.word(x) && c.flip(Fold(c.step, c.start, g)) == c.word(y)
    ensures Fold(c.step, c.zero, Xor(f, g) + Xor(x, y)) == c.zero
  {
    FoldLinear(c.step, c.plus, c.start, c.start, f, g);
    var r := Fold(c.step, c.zero, Xor(f, g));
    assert r == c.word(Xor(x, y));
    FoldAppend(c.step, c.zero, Xor(f, g), Xor(x, y));
  }

  /** Four bytes in a row that leave a zero register at zero are all zero. */
  lemma BurstIsZero<T(!new)>(c: Check<T>, d: seq<Byte>, p: nat)
    requires Linear(c) && Reads(c)
    requires p + 4 <= |d| && Fold(c.step, c.zero, d) == c.zero
    requires forall i :: 0 <= i < |d| && !(p <= i < p + 4) ==> d[i] == 0
    ensures forall i :: 0 <= i < |d| ==> d[i] == 0
  {
    var burst := d[p..p + 4];
    assert d == d[..p] + (burst + d[p + 4..]);
    BurstOfParts(c, d[..p], burst, d[p + 4..]);
    assert d[p] == burst[0] && d[p + 1] == burst[1] && d[p + 2] == burst[2] && d[p + 3] == burst[3];
  }

  lemma BurstOfParts<T(!new)>(c: Check<T>, before: seq<Byte>, burst: seq<Byte>, after: seq<Byte>)
    requires Linear(c) && Reads(c) && |burst| == 4
    requires Fold(c.step, c.zero, before + (burst + after)) == c.zero
    requires forall i :: 0 <= i < |before| ==> before[i] == 0
    requires forall i :: 0 <= i < |after| ==> after[i] == 0
    ensures burst == [0, 0, 0, 0]
  {
    FoldAppend(c.step, c.zero, before, burst + after);
    FoldAppend(c.step, c.zero, burst, after);
    FoldZeros(c.step, c.zero, c.zero, before);
    FoldZeros(c.step, c.zero, Fold(c.step, c.zero, burst), after);
  }

  lemma XorZero(a: Byte, b: Byte)
    ensures a ^ b == 0 <==> a == b
  {
  }

  /** Two checked messages that differ in at most four consecutive bytes are equal. */
  lemma CloseMessagesAgree<T(!new)>(c: Check<T>, f: seq<Byte>, g: seq<Byte>, p: nat)
    requires Linear(c) && Reads(c) && Checked(c, f) && Checked(c, g) && |f| == |g| && p + 4 <= |f|
    requires forall i :: 0 <= i < |f| && !(p <= i < p + 4) ==> f[i] == g[i]
    ensures f == g
  {
    CheckedDifference(c, f, g);
    var d := Xor(f, g);
    forall i | 0 <= i < |f|
      ensures d[i] == 0 <==> f[i] == g[i]
    {
      XorZero(f[i], g[i]);
    }
    BurstIsZero(c, d, p);
  }
}

module Crc {
  import opened Common
  import opened Folds
  import opened LinearCheck

  const POLYNOMIAL: bv32 := 0xedb8_8320
  const ALL_ONES: bv32 := 0xffff_ffff

  /** Addition of polynomials over GF(2). */
  function Plus(a: bv32, b: bv32): bv32 {
    a ^ b
  }

  /** One bit of the shift register; the bit that falls out selects the feedback. */
  function BitStep(c: bv32): bv32 {
    if c & 1 == 1 then (c >> 1) ^ POLYNOMIAL else c >> 1
  }

  function ByteStep(c: bv32, b: Byte): bv32 {
    Iterate(BitStep, Plus(c, b as bv32), 8)
  }

  /** The register after feeding `data`, without the inversions. */
  function Feed(c: bv32, data: seq<Byte>): bv32 {
    Fold(ByteStep, c, data)
  }

  function Crc32(data: seq<Byte>): bv32 {
    !Feed(ALL_ONES, data)
  }

  // ----- linearity and bijectivity -----

  lemma PlusAssociative(a: bv32, b: bv32, c: bv32)
    ensures Plus(Plus(a, b), c) == Plus(a, Plus(b, c))
  {
  }

  lemma PlusCommutative(a: bv32, b: bv32)
    ensures Plus(a, b) == Plus(b, a)
  {
  }

  lemma PlusShuffle(a: bv32, b: bv32, x: bv32, y: bv32)
    ensures Plus(Plus(a, b), Plus(x, y)) == Plus(Plus(a, x), Plus(b, y))
  {
    PlusAssociative(a, b, Plus(x, y));
    PlusAssociative(b, x, y);
    PlusCommutative(b, x);
    PlusAssociative(x, b, y);
    PlusAssociative(a, x, Plus(b, y));
  }

  lemma PlusNone(x: bv32)
    ensures Plus(x, 0) == x
  {
  }

  lemma PlusSelf(x: bv32)
    ensures Plus(x, x) == 0
  {
  }

  lemma PlusZero(x: bv32, y: bv32)
    ensures Plus(x, y) == 0 <==> x == y
  {
    PlusSelf(x);
    if Plus(x, y) == 0 {
      PlusAssociative(x, x, y);
      PlusCommutative(0, y);
      PlusNone(x);
      PlusNone(y);
    }
  }

  lemma LowBit(a: bv32)
    ensures a & 1 == 0 || a & 1 == 1
  {
  }

  lemma NoFeedback(a: bv32, b: bv32)
    requires a & 1 == 0 && b & 1 == 0
    ensures BitStep(a ^ b) == BitStep(a) ^ BitStep(b)
  {
  }

  lemma OneFeedback(a: bv32, b: bv32)
    requires a & 1 == 1 && b & 1 == 0
    ensures BitStep(a ^ b) == BitStep(a) ^ BitStep(b)
    ensures BitStep(b ^ a) == BitStep(b) ^ BitStep(a)
  {
  }

  lemma BothFeedback(a: bv32, b: bv32)
    requires a & 1 == 1 && b & 1 == 1
    ensures BitStep(a ^ b) == BitStep(a) ^ BitStep(b)
  {
  }

  lemma BitStepLinear(a: bv32, b: bv32)
    ensures BitStep(Plus(a, b)) == Plus(BitStep(a), BitStep(b))
  {
    LowBit(a);
    LowBit(b);
    if a & 1 == 0 && b & 1 == 0 {
      NoFeedback(a, b);
    } else if a & 1 == 1 && b & 1 == 1 {
      BothFeedback(a, b);
    } else if a & 1 == 1 {
      OneFeedback(a, b);
    } else {
      OneFeedback(b, a);
    }
  }

  /** The top bit of the polynomial reveals which branch was taken. */
  lemma BitStepZero(c: bv32)
    ensures BitStep(c) == 0 <==> c == 0
  {
  }

  lemma StepsLinear(a: bv32, b: bv32, n: nat)
    ensures Iterate(BitStep, Plus(a, b), n) == Plus(Iterate(BitStep, a, n), Iterate(BitStep, b, n))
  {
    forall x, y
      ensures BitStep(Plus(x, y)) == Plus(BitStep(x), BitStep(y))
    {
      BitStepLinear(x, y);
    }
    IterateLinear(BitStep, Plus, a, b, n);
  }

  lemma StepsZero(c: bv32, n: nat)
    ensures Iterate(BitStep, c, n) == 0 <==> c == 0
  {
    forall x
      ensures BitStep(x) == 0 <==> x == 0
    {
      BitStepZero(x);
    }
    IterateZero(BitStep, 0, c, n);
  }

  lemma ByteXor(a: Byte, b: Byte)
    ensures (a ^ b) as bv32 == Plus(a as bv32, b as bv32)
  {
  }

  lemma ByteStepLinear(a: bv32, b: bv32, x: Byte, y: Byte)
    ensures ByteStep(Plus(a, b), x ^ y) == Plus(ByteStep(a, x), ByteStep(b, y))
  {
    ByteXor(x, y);
    PlusShuffle(a, b, x as bv32, y as bv32);
    StepsLinear(Plus(a, x as bv32), Plus(b, y as bv32), 8);
  }

  // ----- words -----

  function FromLe32(b: seq<Byte>): bv32
    requires |b| == 4
  {
    (b[0] as bv32) | ((b[1] as bv32) << 8) | ((b[2] as bv32) << 16) | ((b[3] as bv32) << 24)
  }

  function ToLe32(x: bv32): (b: seq<Byte>)
    ensures |b| == 4
  {
    [(x & 0xff) as Byte, ((x >> 8) & 0xff) as Byte, ((x >> 16) & 0xff) as Byte, ((x >> 24) & 0xff) as Byte]
  }

  lemma Le32RoundTrip(x: bv32)
    ensures FromLe32(ToLe32(x)) == x
  {
  }

  /** Byte `i` fills the bits from 8 i up. */
  lemma Le32Places(b: Byte)
    ensures FromLe32([b, 0, 0, 0]) == b as bv32 && FromLe32([0, b, 0, 0]) == (b as bv32) << 8
    ensures FromLe32([0, 0, b, 0]) == (b as bv32) << 16 && FromLe32([0, 0, 0, b]) == (b as bv32) << 24
  {
  }

  lemma Le32Inverse(b: seq<Byte>)
    requires |b| == 4
    ensures ToLe32(FromLe32(b)) == b
  {
  }

  // ----- four bytes at once -----

  lemma PlainStep(v: bv32, w: bv32)
    requires v & 1 == 0 && w == v >> 1
    ensures BitStep(v) == w
  {
  }

  /** A word whose low byte is clear shifts down eight times without feedback. */
  lemma EvenChain(x: bv32) returns (a: bv32, b: bv32, c: bv32, d: bv32, e: bv32, f: bv32, g: bv32, h: bv32)
    requires x >> 24 == 0
    ensures a == x << 8 && b == a >> 1 && c == b >> 1 && d == c >> 1
    ensures e == d >> 1 && f == e >> 1 && g == f >> 1 && h == g >> 1 && x == h >> 1
    ensures a & 1 == 0 && b & 1 == 0 && c & 1 == 0 && d & 1 == 0
    ensures e & 1 == 0 && f & 1 == 0 && g & 1 == 0 && h & 1 == 0
  {
    a := x << 8;
    b := a >> 1;
    c := b >> 1;
    d := c >> 1;
    e := d >> 1;
    f := e >> 1;
    g := f >> 1;
    h := g >> 1;
  }

  /** Eight steps without feedback undo a shift by one byte. */
  lemma ShiftedDown(x: bv32)
    requires x >> 24 == 0
    ensures Iterate(BitStep, x << 8, 8) == x
  {
    var a, b, c, d, e, f, g, h := EvenChain(x);
    PlainStep(a, b);
    PlainStep(b, c);
    PlainStep(c, d);
    PlainStep(d, e);
    PlainStep(e, f);
    PlainStep(f, g);
    PlainStep(g, h);
    PlainStep(h, x);
    IterateEight(a, b, c, d, e, f, g, h, x);
  }

  lemma IterateEight(a: bv32, b: bv32, c: bv32, d: bv32, e: bv32, f: bv32, g: bv32, h: bv32, i: bv32)
    requires BitStep(a) == b && BitStep(b) == c && BitStep(c) == d && BitStep(d) == e
    requires BitStep(e) == f && BitStep(f) == g && BitStep(g) == h && BitStep(h) == i
    ensures Iterate(BitStep, a, 8) == i
  {
  }

  /** A byte step on the bottom of a wider word leaves the rest of the word in place. */
  lemma ByteOfWord(c: bv32, b: bv32, rest: bv32)
    requires rest >> 24 == 0
    ensures Iterate(BitStep, Plus(c, Plus(b, rest << 8)), 8) == Plus(Iterate(BitStep, Plus(c, b), 8), rest)
  {
    PlusAssociative(c, b, rest << 8);
    StepsLinear(Plus(c, b), rest << 8, 8);
    ShiftedDown(rest);
  }

  /** One byte step turns a word into its upper bytes exactly when it held that word. */
  lemma ByteAgrees(c: bv32, b: Byte, word: bv32, rest: bv32)
    requires rest >> 24 == 0 && word == Plus(b as bv32, rest << 8)
    ensures ByteStep(c, b) == rest <==> c == word
  {
    ByteOfWord(c, b as bv32, rest);
    StepsZero(Plus(c, word), 8);
    PlusZero(ByteStep(c, b), rest);
    PlusZero(c, word);
  }

  /** `b` below the bytes of `rest`. */
  function Stack(b: Byte, rest: bv32): bv32 {
    Plus(b as bv32, rest << 8)
  }

  lemma ByteLeads(b: Byte, rest: bv32)
    requires rest >> 24 == 0
    ensures Leads(ByteStep, b, Stack(b, rest), rest)
  {
    forall y
      ensures ByteStep(y, b) == rest <==> y == Stack(b, rest)
    {
      ByteAgrees(y, b, Stack(b, rest), rest);
    }
  }

  lemma StackGrows(b: Byte, rest: bv32)
    ensures rest == 0 ==> Stack(b, rest) >> 8 == 0
    ensures rest >> 8 == 0 ==> Stack(b, rest) >> 16 == 0
    ensures rest >> 16 == 0 ==> Stack(b, rest) >> 24 == 0
    ensures rest >> 8 == 0 ==> rest >> 24 == 0
    ensures rest >> 16 == 0 ==> rest >> 24 == 0
  {
  }

  lemma StackFour(a: Byte, b: Byte, c: Byte, d: Byte)
    ensures Stack(a, Stack(b, Stack(c, Stack(d, 0))))
         == (a as bv32) | ((b as bv32) << 8) | ((c as bv32) << 16) | ((d as bv32) << 24)
  {
  }

  /** Four more bytes bring the register to zero exactly when they spell it. */
  lemma WordFeedBy(f: (bv32, Byte) -> bv32, c: bv32, b: seq<Byte>)
    requires |b| == 4
    requires forall d: Byte, rest: bv32 :: rest >> 24 == 0 ==> Leads(f, d, Stack(d, rest), rest)
    ensures Fold(f, c, b) == 0 <==> c == Stack(b[0], Stack(b[1], Stack(b[2], Stack(b[3], 0))))
  {
    var v3 := Stack(b[3], 0);
    var v2 := Stack(b[2], v3);
    var v1 := Stack(b[1], v2);
    StackGrows(b[3], 0);
    StackGrows(b[2], v3);
    StackGrows(b[1], v2);
    FoldFour(f, b, Stack(b[0], v1), v1, v2, v3, 0, c);
  }

  lemma WordFeed(c: bv32, b: seq<Byte>)
    requires |b| == 4
    ensures Fold(ByteStep, c, b) == 0 <==> c == FromLe32(b)
  {
    forall d: Byte, rest: bv32 | rest >> 24 == 0
      ensures Leads(ByteStep, d, Stack(d, rest), rest)
    {
      ByteLeads(d, rest);
    }
    WordFeedBy(ByteStep, c, b);
    StackFour(b[0], b[1], b[2], b[3]);
  }

  // ----- burst detection -----

  lemma NotTwice(x: bv32, y: bv32)
    ensures (!x) ^ (!y) == x ^ y
  {
  }

  lemma Le32Linear(a: seq<Byte>, b: seq<Byte>)
    requires |a| == 4 && |b| == 4
    ensures FromLe32(Xor(a, b)) == FromLe32(a) ^ FromLe32(b)
  {
  }

  lemma Le32Zero(b: seq<Byte>)
    requires |b| == 4 && FromLe32(b) == 0
    ensures b == [0, 0, 0, 0]
  {
  }

  function Flip(c: bv32): bv32 {
    !c
  }

  function WordOf(b: seq<Byte>): bv32 {
    if |b| == 4 then FromLe32(b) else 0
  }

  const CRC32: Check<bv32> := Check(ByteStep, Plus, 0, ALL_ONES, Flip, WordOf)

  lemma Crc32Linear()
    ensures Linear(CRC32)
  {
    forall u, v, s: Byte, t: Byte
      ensures ByteStep(Plus(u, v), s ^ t) == Plus(ByteStep(u, s), ByteStep(v, t))
    {
      ByteStepLinear(u, v, s, t);
    }
    forall y
      ensures ByteStep(y, 0) == 0 <==> y == 0
    {
      ByteAgrees(y, 0, 0, 0);
    }
    forall u, v
      ensures Plus(Flip(u), Flip(v)) == Plus(u, v)
    {
      NotTwice(u, v);
    }
  }

  lemma Crc32Reads()
    ensures Reads(CRC32)
  {
    forall x, w: seq<Byte> | |w| == 4
      ensures Fold(ByteStep, x, w) == 0 <==> x == WordOf(w)
    {
      WordFeed(x, w);
    }
    forall v: seq<Byte>, w: seq<Byte> | |v| == 4 && |w| == 4
      ensures WordOf(Xor(v, w)) == Plus(WordOf(v), WordOf(w))
    {
      Le32Linear(v, w);
    }
    forall w: seq<Byte> | |w| == 4 && WordOf(w) == 0
      ensures w == [0, 0, 0, 0]
    {
      Le32Zero(w);
    }
  }

  /** A message followed by its own CRC-32 in little-endian order. */
  predicate Guarded(f: seq<Byte>) {
    |f| >= 4 && Crc32(f[..|f| - 4]) == FromLe32(f[|f| - 4..])
  }

  /** No change confined to four consecutive bytes turns one guarded message into another. */
  lemma BurstDetected(f: seq<Byte>, g: seq<Byte>, p: nat)
    requires Guarded(f) && |g| == |f| && p + 4 <= |f| && f != g
    requires forall i :: 0 <= i < |f| && !(p <= i < p + 4) ==> f[i] == g[i]
    ensures !Guarded(g)
  {
    if Guarded(g) {
      Crc32Linear();
      Crc32Reads();
      assert Checked(CRC32, f) && Checked(CRC32, g);
      CloseMessagesAgree(CRC32, f, g, p);
    }
  }

  // ----- the program's loop -----

  lemma Masks()
    ensures POLYNOMIAL & (0 - 1 as bv32) == POLYNOMIAL && POLYNOMIAL & (0 - 0 as bv32) == 0
  {
  }

  lemma XorNothing(c: bv32)
    ensures c ^ 0 == c
  {
  }

  /** The branch-free form of the feedback that the program uses. */
  lemma BranchFree(c: bv32)
    ensures (c >> 1) ^ (POLYNOMIAL & (0 - (c & 1))) == BitStep(c)
  {
    LowBit(c);
    Masks();
    if c & 1 == 0 {
      assert 0 - (c & 1) == 0 - 0 as bv32;
      XorNothing(c >> 1);
    } else {
      assert 0 - (c & 1) == 0 - 1 as bv32;
    }
  }

  method MixByte(crc: bv32, b: Byte) returns (r: bv32)
    ensures r == ByteStep(crc, b)
  {
    r := crc ^ (b as bv32);
    ghost var mixed := r;
    for j := 0 to 8
      invariant Iterate(BitStep, mixed, 8) == Iterate(BitStep, r, 8 - j)
    {
      BranchFree(r);
      r := (r >> 1) ^ (POLYNOMIAL & (0 - (r & 1)));
    }
  }

  method ComputeCrc32(data: seq<Byte>) returns (crc: bv32)
    ensures crc == Crc32(data)
  {
    crc := ALL_ONES;
    for i := 0 to |data|
      invariant Feed(ALL_ONES, data) == Feed(crc, data[i..])
    {
      assert data[i..][0] == data[i] && data[i..][1..] == data[i + 1..];
      crc := MixByte(crc, data[i]);
    }
    assert data[|data|..] == [];
    crc := !crc;
  }
}
