/** Powers of two and the uniqueness of Euclidean division, used by the bit reader proofs. */
module Arith {

  /** 2^k */
  function Pow2(k: nat): (p: nat)
    ensures p >= 1
  {
    if k == 0 then 1 else 2 * Pow2(k - 1)
  }

  lemma {:induction false} Pow2Add(a: nat, b: nat)
    ensures Pow2(a + b) == Pow2(a) * Pow2(b)
  {
    if a > 0 {
      Pow2Add(a - 1, b);
      DoubleProduct(Pow2(a - 1), Pow2(b));
    }
  }

  lemma DoubleProduct(x: int, y: int)
    ensures 2 * (x * y) == (2 * x) * y
  {
  }

  lemma Pow2Eight()
    ensures Pow2(8) == 256
  {
  }

  /** A quotient and remainder that satisfy the division equation are the quotient and remainder. */
  lemma DivModUnique(x: int, d: int, q: int, r: int)
    requires d > 0 && 0 <= r < d && x == q * d + r
    ensures x / d == q && x % d == r
  {
    var q', r' := x / d, x % d;
    assert q' * d + r' == q * d + r;
    if q' > q {
      MulAtLeast(q' - q, d);
      Distribute(q', q, d);
    } else if q' < q {
      MulAtLeast(q - q', d);
      Distribute(q, q', d);
    }
  }

  lemma MulAtLeast(k: int, d: int)
    requires k >= 1 && d > 0
    ensures k * d >= d
  {
    assert k * d == (k - 1) * d + d;
  }

  lemma Distribute(a: int, b: int, d: int)
    ensures (a - b) * d == a * d - b * d
  {
  }

  /** The quotient and remainder of a division by a positive divisor. */
  lemma DivModFacts(x: int, d: int)
    requires x >= 0 && d > 0
    ensures x == (x / d) * d + x % d && 0 <= x % d < d && x / d >= 0
  {
  }

  /** Reducing modulo 2p keeps the bit just above the low p-range. */
  lemma ModDouble(b: int, p: int)
    requires b >= 0 && p > 0
    ensures b % (2 * p) == (b / p % 2) * p + b % p
  {
    var q, r := b / p, b % p;
    DivModFacts(b, p);
    var h, t := q / 2, q % 2;
    DivModFacts(q, 2);
    Regroup(h, 2, t, p, r);
    assert t * p + r < 2 * p by {
      assert t <= 1;
      MulAtMost(t, 1, p);
    }
    DivModUnique(b, 2 * p, h, t * p + r);
  }

  /** (h*m + t)*d + r regrouped around the product m*d. */
  lemma Regroup(h: int, m: int, t: int, d: int, r: int)
    ensures (h * m + t) * d + r == h * (m * d) + (t * d + r)
  {
    assert (h * m + t) * d == h * m * d + t * d;
    assert h * m * d == h * (m * d);
  }

  lemma MulAtMost(t: int, u: int, d: int)
    requires t <= u && d > 0
    ensures t * d <= u * d
  {
    assert u * d - t * d == (u - t) * d;
  }

  /** Dropping the low d digits, then keeping the next m, is the same as keeping m*d and dropping d. */
  lemma DivOfMod(b: int, m: int, d: int)
    requires b >= 0 && m > 0 && d > 0
    ensures b % (m * d) / d == b / d % m
  {
    var q, r := b / d, b % d;
    DivModFacts(b, d);
    var h, t := q / m, q % m;
    DivModFacts(q, m);
    Regroup(h, m, t, d, r);
    assert t * d + r < m * d by {
      MulAtMost(t, m - 1, d);
      assert (m - 1) * d == m * d - d;
    }
    assert t * d >= 0;
    DivModUnique(b, m * d, h, t * d + r);
    DivModUnique(t * d + r, d, t, r);
  }
}
