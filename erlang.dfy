/** The Erlang formula evaluators (calculations/erlang.py).
    Each evaluator returns 0 for a negative server count or intensity. The
    three recurrences are `for` loops over `1 .. int(servers)` that update an
    accumulator; when that range is empty the loop's local `b` is never bound
    and reading it raises, which the model reports as `Raises`. */
module Erlang {
  import opened Utils
  import opened Errors
  import opened RealArith

  // ---------------------------------------------------------------------
  // Erlang B

  /** One step of the Erlang B recurrence: B(k) from B(k-1). */
  function BStep(k: nat, a: real, last: real): (r: real)
    requires k >= 1 && a >= 0.0 && last >= 0.0
    ensures 0.0 <= r < 1.0
  {
    var x := a * last;
    MulNonneg(a, last);
    DivGe(x, k as real + x, 0.0);
    DivLt(x, k as real + x, 1.0);
    x / (k as real + x)
  }

  /** The step keeps B in [0, 1), keeps the carried traffic `a * (1 - B(k))`
      below `k`, and never raises B. */
  lemma BStepFacts(k: nat, a: real, last: real)
    requires k >= 1 && a >= 0.0 && 0.0 <= last <= 1.0
    requires a * (1.0 - last) <= (k - 1) as real
    ensures 0.0 <= BStep(k, a, last) < 1.0
    ensures a * (1.0 - BStep(k, a, last)) < k as real
    ensures BStep(k, a, last) <= last
  {
    var x := a * last;
    MulNonneg(a, last);
    var d := k as real + x;
    var r := BStep(k, a, last);
    DivGe(x, d, 0.0);
    DivLt(x, d, 1.0);
    // 1 - r = k / d, and a < d, so a * (1 - r) = k * (a / d) < k
    OneMinusDiv(x, d);
    assert 1.0 - r == (k as real) / d;
    DivLt(a, d, 1.0);
    assert a * (1.0 - r) == (a / d) * (k as real);
    MulLtRight(a / d, 1.0, k as real);
    // last * d - x = last * (k - a * (1 - last)) >= 0
    MulNonneg(last, k as real - a * (1.0 - last));
    assert last * d - x == last * (k as real - a * (1.0 - last));
    DivLe(x, d, last);
  }

  /** B(k) of the recurrence started at B(0) = 1. Every B(k) lies in [0, 1],
      below 1 once k >= 1, and the traffic carried by k servers,
      `a * (1 - B(k))`, never exceeds k (strictly, once k >= 1). */
  function ErlangBRec(k: nat, a: real): (r: real)
    requires a >= 0.0
    ensures 0.0 <= r <= 1.0
    ensures k >= 1 ==> r < 1.0 && a * (1.0 - r) < k as real
    ensures a * (1.0 - r) <= k as real
  {
    if k == 0 then 1.0
    else
      var last := ErlangBRec(k - 1, a);
      BStepFacts(k, a, last);
      BStep(k, a, last)
  }

  /** What `erlang_b` computes: 0 for negative inputs, a raised error when
      `int(servers) = 0`, otherwise B(int(servers)), already in [0, 1]. */
  function ErlangBSpec(servers: real, intensity: real): (r: Outcome<real>)
    ensures r.Value? ==> 0.0 <= r.value <= 1.0
    ensures r.Raises? <==> 0.0 <= servers < 1.0 && intensity >= 0.0
    ensures servers < 0.0 || intensity < 0.0 ==> r == Value(0.0)
    ensures servers >= 1.0 && intensity >= 0.0 ==> r.value < 1.0
    ensures servers >= 1.0 && intensity == 0.0 ==> r == Value(0.0)
  {
    if servers < 0.0 || intensity < 0.0 then Value(0.0)
    else if Trunc(servers) == 0 then Raises
    else Value(MinMax(ErlangBRec(Trunc(servers), intensity), 0.0, 1.0))
  }

  /** erlang_b: the recurrence run as a loop over `last`/`b`. */
  method ErlangB(servers: real, intensity: real) returns (r: Outcome<real>)
    ensures r == ErlangBSpec(servers, intensity)
  {
    if servers < 0.0 || intensity < 0.0 {
      return Value(0.0);
    }
    var maxIterate := Trunc(servers);
    var last := 1.0;
    var b: Outcome<real> := Raises;  // `b` is unbound until the loop body runs
    for count := 1 to maxIterate + 1
      invariant last == ErlangBRec(count - 1, intensity)
      invariant b == if count == 1 then Raises else Value(last)
    {
      var next := BStep(count, intensity, last);
      b := Value(next);
      last := next;
    }
    if b.Raises? {
      return Raises;
    }
    r := Value(MinMax(b.value, 0.0, 1.0));
  }

  /** Erlang B never increases as servers are added. */
  lemma {:induction false} ErlangBMonotone(m: nat, n: nat, a: real)
    requires a >= 0.0 && m <= n
    ensures ErlangBRec(n, a) <= ErlangBRec(m, a)
    decreases n - m
  {
    if m < n {
      ErlangBMonotone(m, n - 1, a);
      ErlangBStepDown(n, a);
    }
  }

  /** Adding one server never raises Erlang B. */
  lemma ErlangBStepDown(n: nat, a: real)
    requires a >= 0.0 && n >= 1
    ensures ErlangBRec(n, a) <= ErlangBRec(n - 1, a)
  {
    BStepFacts(n, a, ErlangBRec(n - 1, a));
  }

  /** Only the integer part of the server count matters. */
  lemma ErlangBIntegerPart(servers: real, intensity: real)
    requires servers >= 0.0
    ensures ErlangBSpec(servers, intensity) == ErlangBSpec(Trunc(servers) as real, intensity)
  {
    TruncOfInt(Trunc(servers));
  }

  /** Since k servers carry at most k erlangs, blocking is at least
      `1 - k / a`; it therefore reaches any target below 1 once the offered
      traffic is large enough. */
  lemma ErlangBLowerBound(servers: real, a: real, blocking: real)
    requires servers >= 1.0 && blocking < 1.0 && a > 0.0
    requires a * (1.0 - blocking) >= Trunc(servers) as real
    ensures ErlangBSpec(servers, a).value >= blocking
  {
    var b := ErlangBRec(Trunc(servers), a);
    assert a * (1.0 - b) <= Trunc(servers) as real;
    assert a * (1.0 - b) <= a * (1.0 - blocking);
  }

  // ---------------------------------------------------------------------
  // Erlang B extended (retries)

  /** One step of the extended recurrence: blocked calls that retry inflate
      the offered traffic by `attempts = 1 / (1 - b * retries)`. */
  function ExtStep(k: nat, a: real, last: real, retries: real): (r: real)
    requires k >= 1 && a >= 0.0 && 0.0 <= last && 0.0 <= retries <= 1.0
    ensures 0.0 <= r < 1.0
    ensures r >= BStep(k, a, last)
    ensures retries == 0.0 ==> r == BStep(k, a, last)
  {
    var attempts := Attempts(BStep(k, a, last), retries);
    var x := a * last * attempts;
    MulNonneg(a, last);
    MulLeLeft(a * last, 1.0, attempts);
    ExtStepGrows(k, a * last, x);
    x / (k as real + x)
  }

  /** The attempts factor `1 / (1 - b * retries)` of a blocking `b` below 1:
      never below 1, since at most every blocked call retries, and exactly 1
      when none does. */
  function Attempts(b: real, retries: real): (m: real)
    requires 0.0 <= b < 1.0 && 0.0 <= retries <= 1.0
    ensures m >= 1.0
    ensures retries == 0.0 ==> m == 1.0
  {
    MulLeRight(retries, 1.0, b);
    DivGe(1.0, 1.0 - b * retries, 1.0);
    1.0 / (1.0 - b * retries)
  }

  /** `x / (k + x)` grows with x. */
  lemma ExtStepGrows(k: nat, y: real, x: real)
    requires k >= 1 && 0.0 <= y <= x
    ensures 0.0 <= x / (k as real + x) < 1.0
    ensures y / (k as real + y) <= x / (k as real + x)
  {
    DivGe(x, k as real + x, 0.0);
    DivLt(x, k as real + x, 1.0);
    var q := x / (k as real + x);
    assert q * (k as real + x) == x;
    // y <= q * (k + y)  since  y * (1 - q) <= k * q  and  1 - q = k / (k + x)
    OneMinusDiv(x, k as real + x);
    assert 1.0 - q == (k as real) / (k as real + x);
    MulLeRight(y, x, 1.0 - q);
    assert x * (1.0 - q) == k as real * q;
    assert y == y * q + y * (1.0 - q);
    DivLe(y, k as real + y, q);
  }

  /** B(k) of the extended recurrence, in [0, 1] and below 1 once k >= 1. */
  function ErlangBExtRec(k: nat, a: real, retries: real): (r: real)
    requires a >= 0.0 && 0.0 <= retries <= 1.0
    ensures 0.0 <= r <= 1.0
    ensures k >= 1 ==> r < 1.0
  {
    if k == 0 then 1.0 else ExtStep(k, a, ErlangBExtRec(k - 1, a, retries), retries)
  }

  /** What `erlang_b_ext` computes; `retry` is clamped into [0, 1]. */
  function ErlangBExtSpec(servers: real, intensity: real, retry: real): (r: Outcome<real>)
    ensures r.Value? ==> 0.0 <= r.value <= 1.0
    ensures r.Raises? <==> 0.0 <= servers < 1.0 && intensity >= 0.0
    ensures servers < 0.0 || intensity < 0.0 ==> r == Value(0.0)
  {
    if servers < 0.0 || intensity < 0.0 then Value(0.0)
    else if Trunc(servers) == 0 then Raises
    else Value(MinMax(ErlangBExtRec(Trunc(servers), intensity, MinMax(retry, 0.0, 1.0)), 0.0, 1.0))
  }

  /** erlang_b_ext: the extended recurrence run as a loop over `last`/`b`. */
  method ErlangBExt(servers: real, intensity: real, retry: real) returns (r: Outcome<real>)
    ensures r == ErlangBExtSpec(servers, intensity, retry)
  {
    if servers < 0.0 || intensity < 0.0 {
      return Value(0.0);
    }
    var maxIterate := Trunc(servers);
    var retries := MinMax(retry, 0.0, 1.0);
    var last := 1.0;
    var b: Outcome<real> := Raises;  // `b` is unbound until the loop body runs
    for count := 1 to maxIterate + 1
      invariant last == ErlangBExtRec(count - 1, intensity, retries)
      invariant b == if count == 1 then Raises else Value(last)
    {
      var next := ExtStep(count, intensity, last, retries);
      b := Value(next);
      last := next;
    }
    if b.Raises? {
      return Raises;
    }
    r := Value(MinMax(b.value, 0.0, 1.0));
  }

  /** Without retries the extended recurrence is plain Erlang B. */
  lemma {:induction false} ErlangBExtNoRetries(k: nat, a: real)
    requires a >= 0.0
    ensures ErlangBExtRec(k, a, 0.0) == ErlangBRec(k, a)
  {
    if k > 0 {
      ErlangBExtNoRetries(k - 1, a);
    }
  }

  /** A retry fraction at or below zero gives exactly `erlang_b`. */
  lemma ErlangBExtNonPositiveRetry(servers: real, intensity: real, retry: real)
    requires retry <= 0.0
    ensures ErlangBExtSpec(servers, intensity, retry) == ErlangBSpec(servers, intensity)
  {
    if servers >= 0.0 && intensity >= 0.0 && Trunc(servers) != 0 {
      ErlangBExtNoRetries(Trunc(servers), intensity);
    }
  }

  /** Retries never lower the blocking probability. */
  lemma {:induction false} ErlangBExtAtLeastErlangB(k: nat, a: real, retries: real)
    requires a >= 0.0 && 0.0 <= retries <= 1.0
    ensures ErlangBExtRec(k, a, retries) >= ErlangBRec(k, a)
  {
    if k > 0 {
      ErlangBExtAtLeastErlangB(k - 1, a, retries);
      ExtStepDominates(k, a, ErlangBRec(k - 1, a), ErlangBExtRec(k - 1, a, retries), retries);
    }
  }

  /** A larger previous value and retries give a larger next value. */
  lemma ExtStepDominates(k: nat, a: real, l: real, le: real, retries: real)
    requires k >= 1 && a >= 0.0 && 0.0 <= l <= le && 0.0 <= retries <= 1.0
    ensures ExtStep(k, a, le, retries) >= BStep(k, a, l)
  {
    MulLeLeft(a, l, le);
    MulNonneg(a, l);
    ExtStepGrows(k, a * l, a * le);
  }

  // ---------------------------------------------------------------------
  // Engset B

  /** Step j of the Engset recurrence divides by `(events - j) * intensity`;
      it raises when that is zero. */
  predicate EngsetSingular(j: int, events: real, intensity: real) {
    (events - j as real) * intensity == 0.0
  }

  /** One step of the Engset recurrence: `last * (k / ((events - k) * intensity)) + 1`. */
  function EngsetStep(k: nat, events: real, intensity: real, last: real): real
    requires !EngsetSingular(k, events, intensity)
  {
    last * (k as real / ((events - k as real) * intensity)) + 1.0
  }

  /** The Engset accumulator after k steps, or the division by zero that
      stopped it. With a positive intensity and more sources than steps,
      every step adds a non-negative term to at least 1, so the accumulator
      is at least 1. */
  function EngsetRec(k: nat, events: real, intensity: real): (r: Outcome<real>)
    ensures intensity > 0.0 && events > k as real ==> r.Value? && r.value >= 1.0
  {
    if k == 0 then Value(1.0)
    else match EngsetRec(k - 1, events, intensity)
      case Raises => Raises
      case Value(last) =>
        if EngsetSingular(k, events, intensity) then Raises
        else
          EngsetStepAtLeastOne(k, events, intensity, last);
          Value(EngsetStep(k, events, intensity, last))
  }

  /** With a positive intensity and `events > k`, step k does not divide by
      zero and takes a non-negative accumulator to at least 1. */
  lemma EngsetStepAtLeastOne(k: nat, events: real, intensity: real, last: real)
    ensures intensity > 0.0 && events > k as real && last >= 0.0 ==>
      !EngsetSingular(k, events, intensity) && EngsetStep(k, events, intensity, last) >= 1.0
  {
    if intensity > 0.0 && events > k as real && last >= 0.0 {
      MulNonZero(events - k as real, intensity);
      MulNonneg(events - k as real, intensity);
      DivGe(k as real, (events - k as real) * intensity, 0.0);
      MulNonneg(last, k as real / ((events - k as real) * intensity));
    }
  }

  /** Once a step has divided by zero, every longer run raises too. */
  lemma {:induction false} EngsetRaisesPersist(j: nat, k: nat, events: real, intensity: real)
    requires j <= k && EngsetRec(j, events, intensity).Raises?
    ensures EngsetRec(k, events, intensity).Raises?
    decreases k - j
  {
    if j < k {
      EngsetRaisesPersist(j, k - 1, events, intensity);
    }
  }

  /** The recurrence over k steps raises exactly when k >= 1 and either the
      intensity is zero or `events` is one of the whole numbers 1 .. k. */
  lemma {:induction false} EngsetRecRaises(k: nat, events: real, intensity: real)
    ensures EngsetRec(k, events, intensity).Raises? <==>
      k >= 1 && (intensity == 0.0 || (events.Floor as real == events && 1 <= events.Floor <= k))
  {
    if k > 0 {
      EngsetRecRaises(k - 1, events, intensity);
      SingularIff(k, events, intensity);
    }
  }

  lemma SingularIff(j: int, events: real, intensity: real)
    ensures EngsetSingular(j, events, intensity) <==> intensity == 0.0 || events == j as real
  {
    if intensity != 0.0 && events != j as real {
      MulNonZero(events - j as real, intensity);
    }
  }

  /** What `engset_b` computes: 0 for a negative server count or intensity,
      otherwise the reciprocal of the final accumulator clamped into [0, 1]
      (0 when the accumulator is exactly 0). */
  function EngsetBSpec(servers: real, events: real, intensity: real): (r: Outcome<real>)
    ensures r.Value? ==> 0.0 <= r.value <= 1.0
    ensures servers < 0.0 || intensity < 0.0 ==> r == Value(0.0)
    ensures servers >= 1.0 && intensity > 0.0 && events > servers ==> r.Value? && r.value > 0.0
  {
    if servers < 0.0 || intensity < 0.0 then Value(0.0)
    else if Trunc(servers) == 0 then Raises
    else match EngsetRec(Trunc(servers), events, intensity)
      case Raises => Raises
      case Value(b) => Value(if b == 0.0 then 0.0 else MinMax(1.0 / b, 0.0, 1.0))
  }

  /** engset_b raises exactly when its loop never runs (`int(servers) = 0`)
      or one of its steps divides by zero: the intensity is zero, or the
      number of events is a whole number reached by the loop. */
  lemma EngsetBRaises(servers: real, events: real, intensity: real)
    ensures EngsetBSpec(servers, events, intensity).Raises? <==>
      servers >= 0.0 && intensity >= 0.0 &&
      (servers < 1.0 || intensity == 0.0 ||
       (events.Floor as real == events && 1 <= events.Floor <= Trunc(servers)))
  {
    if servers >= 0.0 {
      EngsetRecRaises(Trunc(servers), events, intensity);
    }
  }

  /** engset_b: the finite-source recurrence run as a loop over `last`/`b`. */
  method EngsetB(servers: real, events: real, intensity: real) returns (r: Outcome<real>)
    ensures r == EngsetBSpec(servers, events, intensity)
  {
    if servers < 0.0 || intensity < 0.0 {
      return Value(0.0);
    }
    var maxIterate := Trunc(servers);
    var val := intensity;
    var ev := events;
    var last := 1.0;
    var b: Outcome<real> := Raises;  // `b` is unbound until the loop body runs
    for count := 1 to maxIterate + 1
      invariant EngsetRec(count - 1, ev, val) == Value(last)
      invariant b == if count == 1 then Raises else Value(last)
    {
      if EngsetSingular(count, ev, val) {
        // ZeroDivisionError escapes
        EngsetRaisesPersist(count, maxIterate, ev, val);
        return Raises;
      }
      var next := EngsetStep(count, ev, val, last);
      b := Value(next);
      last := next;
    }
    if b.Raises? {
      return Raises;
    }
    var final := b.value;
    r := Value(if final == 0.0 then 0.0 else MinMax(1.0 / final, 0.0, 1.0));
  }

  // ---------------------------------------------------------------------
  // Erlang C

  /** With k = int(servers) >= 1, the Erlang C denominator
      `(a/s) * B + (1 - a/s)` is positive: it is `1 - a * (1 - B) / s`, and
      the carried traffic `a * (1 - B)` stays below k <= s. */
  lemma ErlangCDenominator(servers: real, intensity: real)
    requires servers >= 1.0 && intensity >= 0.0
    ensures var b := ErlangBRec(Trunc(servers), intensity);
      (intensity / servers) * b + (1.0 - intensity / servers) > 0.0
  {
    var b := ErlangBRec(Trunc(servers), intensity);
    assert intensity * (1.0 - b) < servers;
    DenominatorPositive(servers, intensity, b);
  }

  /** `u * b + (1 - u)` with `u = a / s` is `1 - a * (1 - b) / s`, positive
      while the carried traffic `a * (1 - b)` stays below `s`. */
  lemma DenominatorPositive(servers: real, intensity: real, b: real)
    requires servers > 0.0 && intensity * (1.0 - b) < servers
    ensures (intensity / servers) * b + (1.0 - intensity / servers) > 0.0
  {
    var u := intensity / servers;
    DivLt(intensity * (1.0 - b), servers, 1.0);
    assert intensity * (1.0 - b) / servers == u * (1.0 - b);
  }


  /** erlang_c: Erlang C from Erlang B, clamped into [0, 1]. Negative inputs
      give 0; it raises when `erlang_b` does (`0 <= servers < 1`); and with
      no traffic nothing queues. */
  function ErlangC(servers: real, intensity: real): (r: Outcome<real>)
    ensures r.Value? ==> 0.0 <= r.value <= 1.0
    ensures r.Raises? <==> 0.0 <= servers < 1.0 && intensity >= 0.0
    ensures servers < 0.0 || intensity < 0.0 ==> r == Value(0.0)
    ensures servers >= 1.0 && intensity == 0.0 ==> r == Value(0.0)
  {
    if servers < 0.0 || intensity < 0.0 then Value(0.0)
    else match ErlangBSpec(servers, intensity)
      case Raises => Raises
      case Value(b) =>
        ErlangCDenominator(servers, intensity);
        var c := b / (((intensity / servers) * b) + (1.0 - (intensity / servers)));
        Value(MinMax(c, 0.0, 1.0))
  }
}
