/** Facts about multiplication and Euclidean division on naturals that the
  * index computations of the other modules rely on. */
module Arith {

  lemma MulMonotone(a: nat, b: nat, c: nat)
    requires a <= b
    ensures a * c <= b * c
  {
    assert b * c == a * c + (b - a) * c;
  }

  lemma FloorDiv(x: nat, d: nat)
    requires d > 0
    ensures (x / d) * d <= x < (x / d + 1) * d
  {
    assert x == (x / d) * d + x % d;
    assert (x / d + 1) * d == (x / d) * d + d;
  }

  /** Row a, column b of a grid n wide has flat index a*n + b, inside an
    * m-row grid when a < m. */
  lemma JoinBelow(a: nat, b: nat, m: nat, n: nat)
    requires a < m && b < n
    ensures a * n + b < m * n
  {
    MulMonotone(a + 1, m, n);
    assert (a + 1) * n == a * n + n;
  }

  /** Division and remainder by n take a*n + b (b < n) back to a and b. */
  lemma DivModOfJoin(a: nat, b: nat, n: nat)
    requires b < n
    ensures (a * n + b) / n == a && (a * n + b) % n == b
  {
    var i := a * n + b;
    var q := i / n;
    assert i == q * n + i % n;
    if q < a {
      MulMonotone(q + 1, a, n);
      assert false;
    } else if q > a {
      MulMonotone(a + 1, q, n);
      assert false;
    }
  }

  /** A flat index below m*n lies in one of the first m rows. */
  lemma DivBelow(i: nat, m: nat, n: nat)
    requires n > 0 && i < m * n
    ensures i / n < m
  {
    assert i == (i / n) * n + i % n;
    if i / n >= m {
      MulMonotone(m, i / n, n);
      assert false;
    }
  }
}
