/** Rounding and clamping helpers (utils.py), plus Python's `int()` on a float. */
module Utils {

  /** Python's `int(x)` for a float: truncation toward zero. */
  function Trunc(x: real): (r: int)
    ensures x >= 0.0 ==> 0 <= r && r as real <= x < r as real + 1.0
    ensures x < 0.0 ==> r <= 0 && r as real - 1.0 < x <= r as real
  {
    if x >= 0.0 then x.Floor else -((-x).Floor)
  }

  /** Truncation is odd: it rounds toward zero from both sides. */
  lemma TruncNeg(x: real)
    ensures Trunc(-x) == -Trunc(x)
  {
  }

  /** Truncating a whole number gives it back. */
  lemma TruncOfInt(n: int)
    ensures Trunc(n as real) == n
  {
  }

  /** Truncation never reverses an order. */
  lemma TruncMonotone(x: real, y: real)
    requires x <= y
    ensures Trunc(x) <= Trunc(y)
  {
    if x < 0.0 && y >= 0.0 {
      assert Trunc(x) <= 0 <= Trunc(y);
    }
  }

  /** Python's `max(min(val, max_val), min_val)`: clamps `val` into
      `[min_val, max_val]`; an empty range yields `min_val`. */
  function MinMax(val: real, minVal: real, maxVal: real): (r: real)
    ensures minVal <= maxVal ==> minVal <= r <= maxVal
    ensures minVal <= val <= maxVal ==> r == val
    ensures minVal <= maxVal < val ==> r == maxVal
    ensures val < minVal ==> r == minVal
    ensures minVal > maxVal ==> r == minVal
  {
    var m := if val <= maxVal then val else maxVal;
    if m >= minVal then m else minVal
  }

  /** Clamping twice is clamping once. */
  lemma MinMaxIdempotent(val: real, minVal: real, maxVal: real)
    ensures MinMax(MinMax(val, minVal, maxVal), minVal, maxVal) == MinMax(val, minVal, maxVal)
  {
  }

  /** The library's "ceiling": `int(val - 0.9999)` below zero and
      `int(val + 0.9999)` otherwise. For `val >= 0` it is the floor of
      `val + 0.9999`, which lies in `[val - 0.0001, val + 1)`; below zero it is
      the mirror image, rounding away from zero. */
  function IntCeiling(val: real): (r: int)
    ensures val >= 0.0 ==> r >= 0 && r == (val + 0.9999).Floor
    ensures val >= 0.0 ==> val - 0.0001 <= r as real < val + 1.0
    ensures val < 0.0 ==> r <= 0 && val - 1.0 < r as real <= val + 0.0001
  {
    if val < 0.0 then Trunc(val - 0.9999) else Trunc(val + 0.9999)
  }

  /** On non-negative values the library's ceiling never reverses an order. */
  lemma IntCeilingMonotone(x: real, y: real)
    requires 0.0 <= x <= y
    ensures IntCeiling(x) <= IntCeiling(y)
  {
    TruncMonotone(x + 0.9999, y + 0.9999);
  }

  /** On whole numbers the library's ceiling is exact. */
  lemma IntCeilingOfInt(n: int)
    ensures IntCeiling(n as real) == n
  {
    if n < 0 {
      assert (n as real - 0.9999).Floor == n - 1;
      assert Trunc(n as real - 0.9999) == n;
    } else {
      assert (n as real + 0.9999).Floor == n;
    }
  }

  /** The library's ceiling is odd, so a negative value rounds away from
      zero rather than toward plus infinity. */
  lemma IntCeilingOdd(x: real)
    ensures IntCeiling(-x) == -IntCeiling(x)
  {
    if x > 0.0 {
      TruncNeg(x + 0.9999);
      assert -x - 0.9999 == -(x + 0.9999);
    } else if x < 0.0 {
      TruncNeg(-x + 0.9999);
      assert x - 0.9999 == -(-x + 0.9999);
    }
  }

  /** Two places where the library's ceiling is not the mathematical
      ceiling: a fraction below 0.0001 is dropped, and -1.5 goes to -2. */
  lemma IntCeilingQuirks()
    ensures IntCeiling(0.00005) == 0
    ensures IntCeiling(-1.5) == -2
  {
    assert (0.00005 + 0.9999).Floor == 0;
    assert (-(-1.5 - 0.9999)).Floor == 2;
  }

  /** `int(amount * interval + 0.5)`: the default scale is 600. For a
      non-negative product this is rounding half up, and never negative. */
  function Secs(amount: real, interval: real := 600.0): (r: int)
    ensures amount * interval >= 0.0 ==> r >= 0
    ensures amount * interval >= 0.0 ==>
      amount * interval - 0.5 < r as real <= amount * interval + 0.5
  {
    Trunc(amount * interval + 0.5)
  }
}
