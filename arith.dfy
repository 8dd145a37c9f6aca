/** Small facts of real arithmetic that the solver does not find on its own
    inside larger proofs. */
module RealArith {

  lemma MulNonneg(x: real, y: real)
    requires x >= 0.0 && y >= 0.0
    ensures x * y >= 0.0
  {
  }

  lemma MulLeRight(x: real, y: real, z: real)
    requires x <= y && z >= 0.0
    ensures x * z <= y * z
  {
    MulNonneg(y - x, z);
  }

  lemma MulLeLeft(z: real, x: real, y: real)
    requires x <= y && z >= 0.0
    ensures z * x <= z * y
  {
    MulLeRight(x, y, z);
  }

  lemma MulLtRight(x: real, y: real, z: real)
    requires x < y && z > 0.0
    ensures x * z < y * z
  {
  }

  /** A quotient of `x` by a positive `d` is at most `c` exactly when `x` is at most `c * d`. */
  lemma DivLe(x: real, d: real, c: real)
    requires d > 0.0 && x <= c * d
    ensures x / d <= c
  {
    var q := x / d;
    assert q * d == x;
    if q > c {
      MulLtRight(c, q, d);
    }
  }

  lemma DivGe(x: real, d: real, c: real)
    requires d > 0.0 && x >= c * d
    ensures x / d >= c
  {
    var q := x / d;
    assert q * d == x;
    if q < c {
      MulLtRight(q, c, d);
    }
  }

  lemma DivLt(x: real, d: real, c: real)
    requires d > 0.0 && x < c * d
    ensures x / d < c
  {
    var q := x / d;
    assert q * d == x;
    if q >= c {
      MulLeRight(c, q, d);
    }
  }

  lemma DivGt(x: real, d: real, c: real)
    requires d > 0.0 && x > c * d
    ensures x / d > c
  {
    var q := x / d;
    assert q * d == x;
    if q <= c {
      MulLeRight(q, c, d);
    }
  }

  lemma CancelRight(p: real, q: real, d: real)
    requires d != 0.0 && p * d == q * d
    ensures p == q
  {
    assert (p - q) * d == 0.0;
  }

  /** `1 - x / d == (d - x) / d` for a non-zero `d`. */
  lemma OneMinusDiv(x: real, d: real)
    requires d != 0.0
    ensures 1.0 - x / d == (d - x) / d
  {
    assert (x / d) * d == x;
    assert ((d - x) / d) * d == d - x;
    assert (1.0 - x / d) * d == d - x;
    CancelRight(1.0 - x / d, (d - x) / d, d);
  }

  lemma MulNonZero(x: real, y: real)
    requires x != 0.0 && y != 0.0
    ensures x * y != 0.0
  {
  }
}
