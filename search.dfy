/** The two counting searches the staffing and trunk calculations share.
    A ladder tries counts upwards from a start and stops at the first one a
    rule accepts, giving up after a fixed number of tries; a descent lowers
    a call volume until what it needs fits under a limit. */
module Search {
  /** Tries `n, n + 1, ...` for at most `fuel` counts and returns the first
      accepted one. When every try is rejected it returns `n + fuel`, the
      count after the last one tried, which is itself never tried. */
  function Ladder(accepts: int -> bool, n: int, fuel: nat): (r: int)
    ensures n <= r <= n + fuel
    ensures r < n + fuel ==> accepts(r)
    ensures forall k :: n <= k < r ==> !accepts(k)
    decreases fuel
  {
    if fuel == 0 || accepts(n) then n else Ladder(accepts, n + 1, fuel - 1)
  }

  /** Lowers `calls` one at a time while it needs more than `limit` and is
      still positive. The result is the largest volume not above the start
      that fits, or 0 when none above 0 does. */
  function Descend(needs: int -> real, limit: real, calls: int): (r: int)
    ensures r <= calls
    ensures calls >= 0 ==> r >= 0
    ensures r > 0 ==> needs(r) <= limit
    ensures forall c :: r < c <= calls ==> needs(c) > limit
    decreases if calls > 0 then calls else 0
  {
    if needs(calls) > limit && calls > 0 then Descend(needs, limit, calls - 1) else calls
  }

  /** A descent from a higher start against a higher limit never ends
      lower: what fits the smaller search fits the larger one too. */
  lemma DescendMonotone(needs: int -> real, limit: real, limit2: real, calls: int, calls2: int)
    requires limit <= limit2 && 0 <= calls <= calls2
    ensures Descend(needs, limit, calls) <= Descend(needs, limit2, calls2)
  {
  }
}
