/** Inverting Erlang B for the traffic intensity (calculations/traffic.py). */
module Traffic {
  import opened Utils
  import opened Errors
  import opened Erlang
  import opened RealArith

  /** Refinement stops once the step falls below this. */
  const MAX_ACCURACY: real := 0.00001

  /** Hard cap on refinement iterations. */
  const MAX_LOOPS: int := 100

  /** The doubling search's j-th candidate: `int(servers)` doubled j times. */
  function Candidate(servers: real, j: nat): real
  {
    if j == 0 then Trunc(servers) as real else 2.0 * Candidate(servers, j - 1)
  }

  function Pow10(j: nat): (r: real)
    ensures r >= 1.0
  {
    if j == 0 then 1.0 else 10.0 * Pow10(j - 1)
  }

  /** An intensity that `trunks` serve with Erlang B within the target. */
  predicate WithinBlocking(trunks: real, blocking: real, x: real) {
    ErlangBSpec(trunks, x).Value? && ErlangBSpec(trunks, x).value <= blocking
  }

  /** The refinement loop of `looping_traffic` from the state
      (increment, min_i, intensity, loop_no) to its end. A candidate whose
      blocking is too high sends the search back to the last good value
      `min_i` with a step ten times smaller; otherwise the candidate becomes
      the last good value and the search moves one step on. It raises only
      through `erlang_b`, that is only for `0 <= trunks < 1`. */
  function Refine(trunks: real, blocking: real, increment: real, minI: real, intensity: real, loopNo: nat)
    : (r: Outcome<real>)
    ensures r.Raises? ==> 0.0 <= trunks < 1.0
    decreases MAX_LOOPS - loopNo
  {
    if increment < MAX_ACCURACY || loopNo >= MAX_LOOPS then Value(minI)
    else match ErlangBSpec(trunks, intensity)
      case Raises => Raises
      case Value(b) =>
        if b > blocking then
          Refine(trunks, blocking, increment / 10.0, minI, minI + increment / 10.0, loopNo + 1)
        else
          Refine(trunks, blocking, increment, intensity, intensity + increment, loopNo + 1)
  }

  /** What `looping_traffic` returns: the starting intensity or one within
      the blocking target, never below the start for a non-negative step;
      a raised error only for `0 <= trunks < 1`. It has no `max_intensity`
      parameter: the source assigns that variable but never reads it. */
  function LoopingTrafficSpec(trunks: real, blocking: real, increment: real, minIntensity: real): (r: Outcome<real>)
    ensures r.Value? ==> r.value == minIntensity || WithinBlocking(trunks, blocking, r.value)
    ensures r.Value? && increment >= 0.0 ==> r.value >= minIntensity
    ensures r.Raises? ==> 0.0 <= trunks < 1.0
  {
    RefineKeepsLastGood(trunks, blocking, increment, minIntensity, minIntensity, 0, minIntensity);
    Refine(trunks, blocking, increment, minIntensity, minIntensity, 0)
  }

  /** The loop's invariant: the last good value is the starting intensity or
      within the blocking target, and (for a non-negative step) never below
      the starting intensity; so is the result. */
  lemma {:induction false} RefineKeepsLastGood(trunks: real, blocking: real, increment: real,
                                                minI: real, intensity: real, loopNo: nat, start: real)
    requires minI == start || WithinBlocking(trunks, blocking, minI)
    requires increment >= 0.0 ==> start <= minI <= intensity
    ensures var r := Refine(trunks, blocking, increment, minI, intensity, loopNo);
      r.Value? ==> (r.value == start || WithinBlocking(trunks, blocking, r.value)) &&
                   (increment >= 0.0 ==> r.value >= start)
    decreases MAX_LOOPS - loopNo
  {
    if increment < MAX_ACCURACY || loopNo >= MAX_LOOPS {
    } else if ErlangBSpec(trunks, intensity).Value? {
      var b := ErlangBSpec(trunks, intensity).value;
      if b > blocking {
        RefineKeepsLastGood(trunks, blocking, increment / 10.0, minI, minI + increment / 10.0, loopNo + 1, start);
      } else {
        RefineKeepsLastGood(trunks, blocking, increment, intensity, intensity + increment, loopNo + 1, start);
      }
    }
  }

  /** looping_traffic: decimal refinement of the intensity, at most
      MAX_LOOPS rounds, until the step drops below MAX_ACCURACY. */
  method LoopingTraffic(trunks: real, blocking: real, increment: real, maxIntensity: real, minIntensity: real)
    returns (r: Outcome<real>, ghost loops: nat, ghost finalIncrement: real)
    ensures r == LoopingTrafficSpec(trunks, blocking, increment, minIntensity)
    ensures r.Value? ==> r.value == minIntensity || WithinBlocking(trunks, blocking, r.value)
    ensures r.Value? && increment >= 0.0 ==> r.value >= minIntensity
    ensures r.Raises? ==> 0.0 <= trunks < 1.0
    ensures 0.0 <= trunks < 1.0 && minIntensity >= 0.0 && increment >= MAX_ACCURACY ==> r.Raises?
    ensures loops <= MAX_LOOPS
    ensures r.Value? ==> loops == MAX_LOOPS || finalIncrement < MAX_ACCURACY
  {
    var incr := increment;
    var maxI := maxIntensity;
    var minI := minIntensity;
    var intensity := minI;
    var loopNo := 0;
    while incr >= MAX_ACCURACY && loopNo < MAX_LOOPS
      invariant 0 <= loopNo <= MAX_LOOPS
      invariant Refine(trunks, blocking, incr, minI, intensity, loopNo)
             == LoopingTrafficSpec(trunks, blocking, increment, minIntensity)
      decreases MAX_LOOPS - loopNo
    {
      var b := ErlangB(trunks, intensity);
      if b.Raises? {
        return Raises, loopNo, incr;
      }
      if b.value > blocking {
        maxI := intensity;
        incr := incr / 10.0;
        intensity := minI;
      }
      minI := intensity;
      intensity := intensity + incr;
      loopNo := loopNo + 1;
    }
    r, loops, finalIncrement := Value(minI), loopNo, incr;
  }

  /** The doubling search of `traffic`: from `int(servers)` erlangs, double
      until Erlang B reaches the target. Every earlier candidate fell short. */
  method DoubleUntilBlocking(servers: real, blocking: real) returns (maxI: real, ghost doublings: nat)
    requires servers >= 1.0 && 0.0 <= blocking < 1.0
    ensures maxI == Candidate(servers, doublings)
    ensures ErlangBSpec(servers, maxI).value >= blocking
    ensures forall j :: 0 <= j < doublings ==>
      ErlangBSpec(servers, Candidate(servers, j)).value < blocking
  {
    var n := Trunc(servers) as real;
    maxI := n;
    doublings := 0;
    var b := ErlangB(servers, maxI);
    ghost var bound := (n / (1.0 - blocking)).Floor;
    while b.value < blocking
      invariant b == ErlangBSpec(servers, maxI) && b.Value?
      invariant maxI == Candidate(servers, doublings) && maxI >= 1.0
      invariant forall j :: 0 <= j < doublings ==> ErlangBSpec(servers, Candidate(servers, j)).value < blocking
      decreases bound + 1 - maxI.Floor
    {
      DoublingProgress(servers, blocking, maxI);
      maxI := maxI * 2.0;
      doublings := doublings + 1;
      b := ErlangB(servers, maxI);
    }
  }

  /** While the doubling search goes on, the candidate stays below
      `int(servers) / (1 - blocking)`, and each doubling raises its integer
      part: this bounds the number of doublings. */
  lemma DoublingProgress(servers: real, blocking: real, x: real)
    requires servers >= 1.0 && 0.0 <= blocking < 1.0 && x >= 1.0
    requires ErlangBSpec(servers, x).value < blocking
    ensures x.Floor <= (Trunc(servers) as real / (1.0 - blocking)).Floor
    ensures (x * 2.0).Floor > x.Floor
  {
    var n := Trunc(servers) as real;
    if x * (1.0 - blocking) >= n {
      ErlangBLowerBound(servers, x, blocking);
    }
    DivGt(n, 1.0 - blocking, x);
  }

  /** Over exact reals the doubling search can stop only for a target below
      1: with at least one server Erlang B stays below 1. */
  lemma DoublingNeedsTargetBelowOne(servers: real, blocking: real, x: real)
    requires servers >= 1.0 && blocking >= 1.0 && x >= 0.0
    ensures ErlangBSpec(servers, x).value < blocking
  {
  }

  /** The initial decimal step of `traffic`: the smallest power of ten
      (at least 1) strictly above `max_i / 100`. */
  method DecimalStep(maxI: real) returns (incr: real, ghost digits: nat)
    ensures incr == Pow10(digits)
    ensures incr > maxI / 100.0
    ensures digits == 0 || incr / 10.0 <= maxI / 100.0
  {
    incr := 1.0;
    digits := 0;
    while incr <= maxI / 100.0
      invariant incr == Pow10(digits)
      invariant digits == 0 || incr / 10.0 <= maxI / 100.0
      decreases (maxI / 100.0).Floor + 1 - incr.Floor
    {
      incr := incr * 10.0;
      digits := digits + 1;
    }
  }

  /** traffic: the intensity that `servers` trunks carry at the target
      blocking. Returns 0 for fewer than one server or a negative target;
      otherwise a non-negative intensity within the target. */
  method Traffic(servers: real, blocking: real) returns (r: real)
    requires servers >= 1.0 && blocking >= 0.0 ==> blocking < 1.0
    ensures servers < 1.0 || blocking < 0.0 ==> r == 0.0
    ensures r >= 0.0
    ensures servers >= 1.0 && blocking >= 0.0 ==> WithinBlocking(servers, blocking, r)
  {
    var trunksVal := Trunc(servers) as real;
    if servers < 1.0 || blocking < 0.0 {
      return 0.0;
    }
    var maxI, _ := DoubleUntilBlocking(servers, blocking);
    var incr, _ := DecimalStep(maxI);
    var res, _, _ := LoopingTraffic(trunksVal, blocking, incr, maxI, 0.0);
    assert res.Value?;
    r := res.value;
    ErlangBIntegerPart(servers, r);
  }
}
