// Numbers held in bytes: the conversions behind `as u8`, `to_le_bytes`,
// `from_le_bytes` and, on this little-endian machine, `from_ne_bytes`.

module Octets {
  import Arithmetic
  import opened Common

  /** The byte holding a small number, defined by counting so that no proof mixes bit vectors with arithmetic. */
  function ByteOf(n: nat): Byte
    requires n < 256
  {
    if n == 0 then 0 else ByteOf(n - 1) + 1
  }

  lemma Successor(x: Byte)
    requires x as nat < 255
    ensures (x + 1) as nat == x as nat + 1
  {
  }

  lemma Predecessor(b: Byte)
    requires b != 0
    ensures b - 1 != 255 && b - 1 + 1 == b && b - 1 < b
  {
  }

  lemma SameNumber(x: Byte, y: Byte)
    requires x as nat == y as nat
    ensures x == y
  {
  }

  lemma {:induction false} ByteCounts(n: nat)
    requires n < 256
    ensures ByteOf(n) as nat == n
  {
    if n > 0 {
      ByteCounts(n - 1);
      Successor(ByteOf(n - 1));
    }
  }

  lemma NotLast(n: nat)
    requires n < 256 && ByteOf(n) != 255
    ensures n < 255
  {
    ByteCounts(n);
    if n == 255 {
      SameNumber(ByteOf(n), 255);
    }
  }

  /** The number a byte holds. */
  function ValueOf(b: Byte): nat
    decreases b
  {
    if b == 0 then 0
    else
      Predecessor(b);
      ValueOf(b - 1) + 1
  }

  lemma {:induction false} ByteOfValue(b: Byte)
    ensures ValueOf(b) < 256 && ByteOf(ValueOf(b)) == b
    decreases b
  {
    if b != 0 {
      Predecessor(b);
      ByteOfValue(b - 1);
      NotLast(ValueOf(b - 1));
    }
  }

  lemma ValueOfByte(n: nat)
    requires n < 256
    ensures ValueOf(ByteOf(n)) == n
  {
    ByteOfValue(ByteOf(n));
    ByteCounts(n);
    ByteCounts(ValueOf(ByteOf(n)));
  }

  /** How many numbers fit in `width` bytes. */
  function Range(width: nat): (r: nat)
    ensures r > 0
  {
    if width == 0 then 1 else 256 * Range(width - 1)
  }

  /** The low `width` bytes of a number, least significant first. */
  function ToLe(n: nat, width: nat): (s: seq<Byte>)
    ensures |s| == width
    decreases width, n
  {
    if width == 0 then [] else [ByteOf(n % 256)] + ToLe(n / 256, width - 1)
  }

  function FromLe(s: seq<Byte>): nat {
    if s == [] then 0 else ValueOf(s[0]) + 256 * FromLe(s[1..])
  }

  lemma {:induction false} FromLeBelow(s: seq<Byte>)
    ensures FromLe(s) < Range(|s|)
    decreases |s|
  {
    if s != [] {
      ByteOfValue(s[0]);
      FromLeBelow(s[1..]);
    }
  }

  lemma DivMod(low: nat, high: nat)
    requires low < 256
    ensures (low + 256 * high) % 256 == low && (low + 256 * high) / 256 == high
  {
  }

  lemma {:induction false} LeRoundTrip(n: nat, width: nat)
    requires n < Range(width)
    ensures FromLe(ToLe(n, width)) == n
    decreases width
  {
    if width > 0 {
      ValueOfByte(n % 256);
      LeRoundTrip(n / 256, width - 1);
      assert ToLe(n, width)[1..] == ToLe(n / 256, width - 1);
    }
  }

  lemma {:induction false} LeInverse(s: seq<Byte>)
    ensures ToLe(FromLe(s), |s|) == s
    decreases |s|
  {
    if s != [] {
      LeInverse(s[1..]);
      ByteOfValue(s[0]);
      DivMod(ValueOf(s[0]), FromLe(s[1..]));
    }
  }

  lemma Ranges()
    ensures Range(2) == 0x1_0000 && Range(4) == 0x1_0000_0000 && Range(8) == 0x1_0000_0000_0000_0000
  {
  }

  lemma DivTwice(n: nat, r: nat)
    requires r > 0
    ensures n / 256 / r == n / (256 * r)
  {
    var m := n / 256;
    Arithmetic.DivMod(m, r);
    assert n == 256 * r * (m / r) + (256 * (m % r) + n % 256);
    Arithmetic.QuotientIs(n, 256 * r, m / r, 256 * (m % r) + n % 256);
  }

  /** Little-endian: byte `i` has the weight of the i-th power of 256. */
  lemma {:induction false} ByteOrder(n: nat, width: nat, i: nat)
    requires i < width
    ensures ToLe(n, width)[i] as nat == n / Range(i) % 256
    decreases i
  {
    if i == 0 {
      ByteCounts(n % 256);
      assert n / Range(0) == n;
    } else {
      assert ToLe(n, width)[1..] == ToLe(n / 256, width - 1);
      ByteOrder(n / 256, width - 1, i - 1);
      DivTwice(n, Range(i - 1));
    }
  }
}
