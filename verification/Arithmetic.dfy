// Facts about multiplication, division and powers of two that the solver does not
// find by itself.

module Arithmetic {
  lemma MulMonotone(d: nat, a: int, b: int)
    requires a <= b
    ensures d * a <= d * b
  {
  }

  lemma DivMod(n: nat, d: nat)
    requires d > 0
    ensures n == d * (n / d) + n % d && 0 <= n % d < d && 0 <= n / d
  {
  }

  /** Quotient and remainder are determined by n = d q + r with r below d. */
  lemma QuotientIs(n: nat, d: nat, q: int, r: nat)
    requires n == d * q + r && r < d
    ensures n / d == q && n % d == r
  {
    DivMod(n, d);
    var k := n / d;
    if k > q {
      MulMonotone(d, q + 1, k);
    } else if k < q {
      MulMonotone(d, k + 1, q);
    }
  }

  lemma QuotientBelow(n: nat, d: nat, bound: nat)
    requires 0 < d && n < d * bound
    ensures n / d < bound
  {
  }

  lemma QuotientAtLeast(n: nat, d: nat)
    requires 0 < d <= n
    ensures n / d >= 1
  {
  }

  function Pow2(n: nat): (p: nat)
    ensures p > 0
  {
    if n == 0 then 1 else 2 * Pow2(n - 1)
  }

  lemma {:induction false} Pow2Monotone(a: nat, b: nat)
    requires a <= b
    ensures Pow2(a) <= Pow2(b)
    decreases b - a
  {
    if a < b {
      Pow2Monotone(a, b - 1);
    }
  }
}
