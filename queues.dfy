/** Closed-form queue metrics over Erlang C (queues/queues.py).
    Every metric first rejects negative agents or calls and a non-positive
    handle time with InvalidInput; inside its `try` block any failure is
    re-raised as a CalculationFailure. */
module Queues {
  import opened Utils
  import opened Errors
  import opened Erlang
  import opened RealArith
  import Config

  /** The parameter checks shared by every metric. */
  predicate BadRates(agents: real, calls: real, aht: real) {
    agents < 0.0 || calls < 0.0 || aht <= 0.0
  }

  /** Calls one agent completes per interval: `INTERVAL / aht`. */
  function DeathRate(aht: real): (r: real)
    requires aht > 0.0
    ensures r > 0.0
  {
    Config.INTERVAL / aht
  }

  /** Offered traffic in erlangs, `calls / (INTERVAL / aht)`; the same as
      `calls * aht / INTERVAL`. */
  function TrafficRate(calls: real, aht: real): (r: real)
    requires aht > 0.0
    ensures r == calls * aht / Config.INTERVAL
    ensures calls >= 0.0 ==> r >= 0.0
  {
    calls / DeathRate(aht)
  }

  /** Utilisation `traffic / agents` with the stability cap: 1 or more is
      replaced by 0.99, so the result is always below 1. */
  function CappedUtilisation(trafficRate: real, agents: real): (u: real)
    requires agents > 0.0 && trafficRate >= 0.0
    ensures 0.0 <= u < 1.0
    ensures trafficRate < agents ==> u == trafficRate / agents
    ensures trafficRate >= agents ==> u == 0.99
  {
    DivGe(trafficRate, agents, 0.0);
    if trafficRate < agents then DivLt(trafficRate, agents, 1.0); trafficRate / agents
    else DivGe(trafficRate, agents, 1.0); 0.99
  }

  /** `agents * death_rate * (1 - utilisation)` is positive, and below the
      cap it is the spare service capacity `death_rate * (agents - traffic)`. */
  lemma SpareCapacity(agents: real, aht: real, trafficRate: real)
    requires agents > 0.0 && aht > 0.0 && trafficRate >= 0.0
    ensures agents * DeathRate(aht) * (1.0 - CappedUtilisation(trafficRate, agents)) > 0.0
    ensures trafficRate < agents ==>
      agents * DeathRate(aht) * (1.0 - CappedUtilisation(trafficRate, agents))
        == DeathRate(aht) * (agents - trafficRate)
  {
    var u := CappedUtilisation(trafficRate, agents);
    var m := DeathRate(aht);
    assert agents * m > 0.0;
    MulLtRight(0.0, agents * m, 1.0 - u);
    if trafficRate < agents {
      assert agents * u == trafficRate;
    }
  }

  /** queued: the probability that a call waits, i.e. Erlang C of the
      offered traffic. Fails (as a calculation) when `0 <= agents < 1`,
      where `erlang_c` raises. */
  function Queued(agents: real, calls: real, aht: real): (r: Result<real>)
    ensures BadRates(agents, calls, aht) ==> r == Err(InvalidInput)
    ensures !BadRates(agents, calls, aht) ==>
      (r.Err? <==> agents < 1.0) && (r.Err? ==> r.error == CalculationFailure)
    ensures r.Ok? ==>
      0.0 <= r.value <= 1.0 && ErlangC(agents, TrafficRate(calls, aht)) == Value(r.value)
    ensures !BadRates(agents, calls, aht) && agents >= 1.0 && calls == 0.0 ==> r == Ok(0.0)
  {
    if BadRates(agents, calls, aht) then Err(InvalidInput)
    else
      var trafficRate := TrafficRate(calls, aht);
      match ErlangC(agents, trafficRate)
      case Raises => Err(CalculationFailure)
      case Value(q) => Ok(MinMax(q, 0.0, 1.0))
  }

  /** queue_size: the mean queue length `u * C / (1 - u)` rounded half up,
      so within half a call of it. It is never negative; it fails when `0 <= agents < 1` (division by zero
      at 0 agents, `erlang_c` below 1). */
  function QueueSize(agents: real, calls: real, aht: real): (r: Result<int>)
    ensures BadRates(agents, calls, aht) ==> r == Err(InvalidInput)
    ensures !BadRates(agents, calls, aht) && agents < 1.0 ==> r == Err(CalculationFailure)
    ensures !BadRates(agents, calls, aht) && agents >= 1.0 ==> r.Ok? && r.value >= 0
    ensures !BadRates(agents, calls, aht) && agents >= 1.0 ==>
      var t := TrafficRate(calls, aht);
      var u := CappedUtilisation(t, agents);
      var q := MeanQueue(u, ErlangC(agents, t).value);
      q - 0.5 < r.value as real <= q + 0.5
  {
    if BadRates(agents, calls, aht) then Err(InvalidInput)
    else if agents == 0.0 then Err(CalculationFailure)  // utilisation divides by zero
    else
      var trafficRate := TrafficRate(calls, aht);
      var utilisation := CappedUtilisation(trafficRate, agents);
      match ErlangC(agents, trafficRate)
      case Raises => Err(CalculationFailure)
      case Value(c) =>
        var qsize := MeanQueue(utilisation, c);
        Ok(Trunc(qsize + 0.5))
  }

  /** The mean queue length `u * C / (1 - u)` for a utilisation below 1 and
      a queueing probability `C`; never negative. */
  function MeanQueue(u: real, c: real): (q: real)
    requires 0.0 <= u < 1.0 && c >= 0.0
    ensures q >= 0.0
  {
    MulNonneg(u, c);
    DivGe(u * c, 1.0 - u, 0.0);
    (u * c) / (1.0 - u)
  }

  /** queue_time: `secs(1 / (agents * death_rate * (1 - u)))`. With spare
      capacity this is `secs(aht / (INTERVAL * (agents - traffic)))`; when
      the traffic reaches the agents the capped utilisation 0.99 stands in.
      It is never negative; 0 agents pass validation and then divide by zero. */
  function QueueTime(agents: real, calls: real, aht: real): (r: Result<int>)
    ensures BadRates(agents, calls, aht) ==> r == Err(InvalidInput)
    ensures !BadRates(agents, calls, aht) && agents == 0.0 ==> r == Err(CalculationFailure)
    ensures !BadRates(agents, calls, aht) && agents > 0.0 ==> r.Ok? && r.value >= 0
    ensures !BadRates(agents, calls, aht) && TrafficRate(calls, aht) < agents ==>
      r == Ok(Secs(aht / (Config.INTERVAL * (agents - TrafficRate(calls, aht)))))
    ensures !BadRates(agents, calls, aht) && agents > 0.0 && TrafficRate(calls, aht) >= agents ==>
      r == Ok(Secs(1.0 / (agents * DeathRate(aht) * 0.01)))
  {
    if BadRates(agents, calls, aht) then Err(InvalidInput)
    else if agents == 0.0 then Err(CalculationFailure)  // utilisation divides by zero
    else
      var deathRate := DeathRate(aht);
      var trafficRate := TrafficRate(calls, aht);
      var utilisation := CappedUtilisation(trafficRate, agents);
      SpareCapacity(agents, aht, trafficRate);
      var qtime := 1.0 / (agents * deathRate * (1.0 - utilisation));
      DivGe(1.0, agents * deathRate * (1.0 - utilisation), 0.0);
      QueueTimeClosedForm(agents, aht, trafficRate);
      assert trafficRate < agents ==>
        qtime == aht / (Config.INTERVAL * (agents - trafficRate));
      assert trafficRate >= agents ==> qtime == 1.0 / (agents * deathRate * 0.01) by {
        if trafficRate >= agents {
          assert 1.0 - utilisation == 0.01;
        }
      }
      assert TrafficRate(calls, aht) >= agents ==> qtime == 1.0 / (agents * DeathRate(aht) * 0.01);
      Ok(Secs(qtime))
  }

  /** Below the cap, `1 / (agents * death_rate * (1 - u))` is
      `aht / (INTERVAL * (agents - traffic))`. */
  lemma QueueTimeClosedForm(agents: real, aht: real, trafficRate: real)
    requires agents > 0.0 && aht > 0.0 && trafficRate >= 0.0
    ensures trafficRate < agents ==>
      1.0 / (agents * DeathRate(aht) * (1.0 - CappedUtilisation(trafficRate, agents)))
        == aht / (Config.INTERVAL * (agents - trafficRate))
  {
    SpareCapacity(agents, aht, trafficRate);
    if trafficRate < agents {
      var m := DeathRate(aht);
      var s := agents - trafficRate;
      assert m * aht == Config.INTERVAL;
      assert (1.0 / (m * s)) * (Config.INTERVAL * s) == aht;
    }
  }

  /** The wait `qtime * (1 - (1 - sla) / c)` of `service_time` for an Erlang
      C value `c` that leaves no more than `c` of the calls to the target:
      never negative, and below the cap `aht / (agents - traffic)` times the
      share of queued calls the target does not cover. */
  function Wait(agents: real, sla: real, c: real, trafficRate: real, aht: real): (w: real)
    requires agents > 0.0 && aht > 0.0 && trafficRate >= 0.0
    requires c > 0.0 && c >= 1.0 - sla
    ensures w >= 0.0
    ensures trafficRate < agents ==> w == aht / (agents - trafficRate) * (1.0 - (1.0 - sla) / c)
  {
    var utilisation := CappedUtilisation(trafficRate, agents);
    SpareCapacity(agents, aht, trafficRate);
    QueueTimeClosedForm(agents, aht, trafficRate);
    var qtime := 1.0 / (agents * DeathRate(aht) * (1.0 - utilisation)) * Config.INTERVAL;
    DivGe(1.0, agents * DeathRate(aht) * (1.0 - utilisation), 0.0);
    DivLe(1.0 - sla, c, 1.0);
    MulNonneg(qtime, 1.0 - (1.0 - sla) / c);
    qtime * (1.0 - (1.0 - sla) / c)
  }

  /** service_time: the wait `qtime * (1 - (1 - sla) / C)` (in seconds over
      the interval) that meets the target. It fails when `erlang_c` raises
      (`0 <= agents < 1`), when fewer calls queue than the target leaves
      (`C < 1 - sla`), and when C is 0 with `sla >= 1` (division by zero).
      Otherwise the wait is never negative, so the `adjust` branch never
      fires. */
  function ServiceTime(agents: real, sla: real, calls: real, aht: real): (r: Result<int>)
    ensures BadRates(agents, calls, aht) || sla < 0.0 ==> r == Err(InvalidInput)
    ensures !BadRates(agents, calls, aht) && sla >= 0.0 && agents < 1.0 ==> r == Err(CalculationFailure)
    ensures !BadRates(agents, calls, aht) && sla >= 0.0 && agents >= 1.0 ==>
      var c := ErlangC(agents, TrafficRate(calls, aht)).value;
      (r.Err? <==> c < 1.0 - sla || c == 0.0) && (r.Err? ==> r.error == CalculationFailure) &&
      (r.Ok? ==> r == Ok(Trunc(Wait(agents, sla, c, TrafficRate(calls, aht), aht))))
    ensures r.Ok? ==> r.value >= 0
  {
    if BadRates(agents, calls, aht) || sla < 0.0 then Err(InvalidInput)
    else
      var adjust := 0.0;
      var trafficRate := TrafficRate(calls, aht);
      match ErlangC(agents, trafficRate)
      case Raises => Err(CalculationFailure)
      case Value(c) =>
        if c < 1.0 - sla then Err(CalculationFailure)
        else if c == 0.0 then Err(CalculationFailure)  // (1 - sla) / c divides by zero
        else
          var stime := Wait(agents, sla, c, trafficRate, aht);
          var adjust' := if stime < 0.0 then 1.0 else adjust;
          Ok(Trunc(stime + adjust'))
  }

  /** The service level `1 - c * e^((traffic - agents) * t / aht)` for the
      Erlang C value `c`: the share of calls answered within `t` seconds,
      before any clamping. */
  function QueuedLevel(exp: real -> real, c: real, agents: real, trafficRate: real, serviceTime: real, aht: real)
    : (sl: real)
    requires aht > 0.0
    ensures c == 0.0 ==> sl == 1.0
  {
    1.0 - c * exp((trafficRate - agents) * serviceTime / aht)
  }

  /** sla_metric: the achieved service level `1 - C * e^((traffic - agents) * t / aht)`
      clamped into [0, 1]; `exp` stands for `math.exp`. The capped
      utilisation is computed in the source but never used; its only effect
      is the division by zero at 0 agents. */
  function SlaMetric(exp: real -> real, agents: real, serviceTime: real, calls: real, aht: real): (r: Result<real>)
    ensures BadRates(agents, calls, aht) || serviceTime < 0.0 ==> r == Err(InvalidInput)
    ensures !BadRates(agents, calls, aht) && serviceTime >= 0.0 ==>
      (r.Err? <==> agents < 1.0) && (r.Err? ==> r.error == CalculationFailure)
    ensures r.Ok? ==> 0.0 <= r.value <= 1.0
    ensures !BadRates(agents, calls, aht) && serviceTime >= 0.0 && agents >= 1.0 && calls == 0.0 ==>
      r == Ok(1.0)
  {
    if BadRates(agents, calls, aht) || serviceTime < 0.0 then Err(InvalidInput)
    else if agents == 0.0 then Err(CalculationFailure)  // utilisation divides by zero
    else
      var trafficRate := TrafficRate(calls, aht);
      match ErlangC(agents, trafficRate)
      case Raises => Err(CalculationFailure)
      case Value(c) =>
        var slQueued := QueuedLevel(exp, c, agents, trafficRate, serviceTime, aht);
        Ok(MinMax(slQueued, 0.0, 1.0))
  }
}
