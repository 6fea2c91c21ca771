/** Facts about Euclidean division that the solver does not find unaided. */
module Arith {
  /** The quotient and remainder of a division are unique. */
  lemma DivModUnique(x: int, m: nat, q: int, r: int)
    requires m > 0 && x == q * m + r && 0 <= r < m
    ensures x % m == r
  {
    var q', r' := x / m, x % m;
    assert x == q' * m + r';
    if q' < q {
      assert (q - q') * m == r' - r;
      MulAtLeast(q - q', m);
    } else if q' > q {
      assert (q' - q) * m == r - r';
      MulAtLeast(q' - q, m);
    }
  }

  lemma MulAtLeast(a: int, m: nat)
    requires a >= 1
    ensures a * m >= m
  {
    assert a * m == (a - 1) * m + m;
  }

  /** Regrouping a product of a sum. */
  lemma MulRegroup(q1: int, b: int, q0: int, a: int)
    ensures (q1 * b + q0) * a == q1 * (a * b) + q0 * a
  {
  }

  /** A digit below `b`, scaled by `a`, leaves room for one more `a` below `a * b`. */
  lemma MulBelow(q0: nat, b: nat, a: nat)
    requires q0 < b
    ensures q0 * a + a <= a * b
  {
    assert (b - q0) * a >= a by {
      MulAtLeast(b - q0, a);
    }
  }

  /** A positive factor cancels. */
  lemma MulCancel(a: int, b: int, m: nat)
    requires m > 0 && a * m == b * m
    ensures a == b
  {
    if a < b {
      assert (b - a) * m == b * m - a * m;
      MulAtLeast(b - a, m);
    } else if a > b {
      assert (a - b) * m == a * m - b * m;
      MulAtLeast(a - b, m);
    }
  }
}
