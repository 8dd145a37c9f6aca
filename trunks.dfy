/** Trunk sizing (trunks/trunks.py): how many lines a group of agents needs
    so that fewer than one call in a thousand finds every line busy, each
    call holding its line while it waits and while it is handled. */
module Trunks {
  import opened Utils
  import opened Errors
  import opened Erlang
  import opened Queues
  import opened Search
  import opened Capacity
  import RealArith
  import Config

  /** The last trunk count `number_trunks` tries. */
  const MAX_TRUNKS: int := 65535

  /** The blocking `number_trunks` settles for: under one call in a thousand. */
  const BLOCKING_TARGET: real := 0.001

  /** `count` trunks offered `intensity` erlangs: `erlang_b` yields a value,
      and it is under the target. */
  predicate LowBlocking(count: int, intensity: real) {
    var b := ErlangBSpec(count as real, intensity);
    b.Value? && b.value < BLOCKING_TARGET
  }

  /** The test `number_trunks` applies at each count. */
  function LowBlockingRule(intensity: real): int -> bool {
    count => LowBlocking(count, intensity)
  }

  /** The closure is `LowBlocking` at every count. */
  lemma LowBlockingRuleIs(intensity: real)
    ensures forall count :: LowBlockingRule(intensity)(count) == LowBlocking(count, intensity)
  {
  }

  // ------------------------------------------------------------- number_trunks

  /** number_trunks: the least count from `int_ceiling(servers)` up to
      65535 whose blocking is under one in a thousand. Negative inputs are
      rejected; starting from 0 trunks fails (Erlang B raises there), and so
      does a range with no count that qualifies. With no traffic the first
      count qualifies. */
  function NumberTrunksSpec(servers: real, intensity: real): (r: Result<int>)
    ensures r == Err(InvalidInput) <==> servers < 0.0 || intensity < 0.0
    ensures r.Ok? ==>
      && 1 <= IntCeiling(servers) <= r.value <= MAX_TRUNKS
      && LowBlocking(r.value, intensity)
      && forall k :: IntCeiling(servers) <= k < r.value ==> !LowBlocking(k, intensity)
    ensures r == Err(CalculationFailure) <==>
      && servers >= 0.0 && intensity >= 0.0
      && (IntCeiling(servers) < 1 ||
          forall k :: IntCeiling(servers) <= k <= MAX_TRUNKS ==> !LowBlocking(k, intensity))
    ensures servers >= 0.0 && intensity == 0.0 && 1 <= IntCeiling(servers) <= MAX_TRUNKS ==>
      r == Ok(IntCeiling(servers))
  {
    if servers < 0.0 || intensity < 0.0 then Err(InvalidInput)
    else
      var start := IntCeiling(servers);
      if start < 1 then Err(CalculationFailure)  // erlang_b raises at 0 trunks
      else if start > MAX_TRUNKS then Err(CalculationFailure)
      else
        var count := Ladder(LowBlockingRule(intensity), start, MAX_TRUNKS + 1 - start);
        LowBlockingRuleIs(intensity);
        if count > MAX_TRUNKS then Err(CalculationFailure) else Ok(count)
  }

  /** number_trunks: count up from `int_ceiling(servers)`, running Erlang B
      at each count. */
  method NumberTrunks(servers: real, intensity: real) returns (r: Result<int>)
    ensures r == NumberTrunksSpec(servers, intensity)
  {
    if servers < 0.0 || intensity < 0.0 {
      return Err(InvalidInput);
    }
    var maxIterate := MAX_TRUNKS;
    var start := IntCeiling(servers);
    ghost var rule := LowBlockingRule(intensity);
    LowBlockingRuleIs(intensity);
    var count := start;
    while count <= maxIterate
      invariant 0 <= start <= count
      invariant count == start || (start >= 1 && count <= maxIterate + 1)
      invariant 1 <= start <= maxIterate ==>
        Ladder(rule, count, maxIterate + 1 - count) == Ladder(rule, start, maxIterate + 1 - start)
      decreases maxIterate - count
    {
      TruncOfInt(count);
      var b := ErlangB(count as real, intensity);
      if b.Raises? {
        return Err(CalculationFailure);
      }
      if b.value < BLOCKING_TARGET {
        return Ok(count);
      }
      count := count + 1;
    }
    return Err(CalculationFailure);
  }

  // ----------------------------------------------------------- trunks_required

  /** `calls / (INTERVAL / (aht + answer))`: the erlangs the trunks carry
      when each call holds its line for its wait of `answer` seconds as well
      as its handling. It is never below the traffic the agents see. */
  function OfferedLoad(calls: real, aht: real, answer: int): (r: real)
    requires calls >= 0.0 && aht > 0.0 && answer >= 0
    ensures r == calls * (aht + answer as real) / Config.INTERVAL
    ensures r >= TrafficRate(calls, aht)
  {
    var holding := aht + answer as real;
    assert calls / (Config.INTERVAL / holding) == calls * holding / Config.INTERVAL;
    assert calls * holding >= calls * aht by {
      RealArith.MulLeLeft(calls, aht, holding);
    }
    calls / (Config.INTERVAL / holding)
  }

  /** The trunks for `agents` agents, once the Erlang C value `c` is known:
      `number_trunks` on the offered load, any failure of it reported as a
      calculation failure, and a result below 1 raised to 1 when there is
      traffic. The raise never applies, since a count `number_trunks`
      returns is at least 1. */
  function TrunksFor(c: real, agents: real, calls: real, aht: real): (r: Result<int>)
    requires 0.0 <= c && agents >= 1.0 && calls >= 0.0 && aht > 0.0
    ensures var load := OfferedLoad(calls, aht, AnswerSeconds(c, agents, TrafficRate(calls, aht), aht));
      && (r.Ok? <==> NumberTrunksSpec(agents, load).Ok?)
      && (r.Ok? ==> r == NumberTrunksSpec(agents, load))
      && (r.Err? ==> r.error == CalculationFailure)
  {
    var trafficRate := TrafficRate(calls, aht);
    var load := OfferedLoad(calls, aht, AnswerSeconds(c, agents, trafficRate, aht));
    match NumberTrunksSpec(agents, load)
    case Ok(n) => Ok(if n < 1 && trafficRate > 0.0 then 1 else n)
    case Err(_) => Err(CalculationFailure)
  }

  /** trunks_required. Negative agents or volume, or a non-positive handle
      time, are rejected; fewer than one agent fails (the utilisation divides
      by zero agents, Erlang C raises below one); otherwise the count is
      `number_trunks` on the offered load, so it is at least the agents
      rounded up, at most 65535, and blocks under one call in a thousand. */
  function TrunksRequiredSpec(agents: real, calls: real, aht: real): (r: Result<int>)
    ensures r == Err(InvalidInput) <==> BadRates(agents, calls, aht)
    ensures !BadRates(agents, calls, aht) && agents < 1.0 ==> r == Err(CalculationFailure)
    ensures r.Ok? ==> agents >= 1.0 && 1 <= IntCeiling(agents) <= r.value <= MAX_TRUNKS
    ensures r.Err? && !BadRates(agents, calls, aht) ==> r.error == CalculationFailure
    ensures r.Ok? ==>
      var c := ErlangC(agents, TrafficRate(calls, aht)).value;
      var load := OfferedLoad(calls, aht, AnswerSeconds(c, agents, TrafficRate(calls, aht), aht));
      r == NumberTrunksSpec(agents, load) && LowBlocking(r.value, load)
  {
    if BadRates(agents, calls, aht) then Err(InvalidInput)
    else if agents == 0.0 then Err(CalculationFailure)  // utilisation divides by zero
    else match ErlangC(agents, TrafficRate(calls, aht))
      case Raises => Err(CalculationFailure)
      case Value(c) => TrunksFor(c, agents, calls, aht)
  }

  /** trunks_required: Erlang C, the answer time, the offered load, then
      `number_trunks`. */
  method TrunksRequired(agents: real, calls: real, aht: real) returns (r: Result<int>)
    ensures r == TrunksRequiredSpec(agents, calls, aht)
  {
    if agents < 0.0 || calls < 0.0 || aht <= 0.0 {
      return Err(InvalidInput);
    }
    if agents == 0.0 {
      return Err(CalculationFailure);
    }
    var trafficRate := TrafficRate(calls, aht);
    var c := ErlangC(agents, trafficRate);
    if c.Raises? {
      return Err(CalculationFailure);
    }
    var answer := AnswerSeconds(c.value, agents, trafficRate, aht);
    var noTrunks := NumberTrunks(agents, OfferedLoad(calls, aht, answer));
    if noTrunks.Err? {
      return Err(CalculationFailure);
    }
    var n := noTrunks.value;
    if n < 1 && trafficRate > 0.0 {
      n := 1;
    }
    return Ok(n);
  }

  /** With no calls nobody waits and nothing is offered, so the trunks are
      the agents rounded up. */
  lemma TrunksNoCalls(agents: real, aht: real)
    requires 1.0 <= agents && aht > 0.0 && IntCeiling(agents) <= MAX_TRUNKS
    ensures TrunksRequiredSpec(agents, 0.0, aht) == Ok(IntCeiling(agents))
  {
    var c := ErlangC(agents, TrafficRate(0.0, aht)).value;
    assert OfferedLoad(0.0, aht, AnswerSeconds(c, agents, TrafficRate(0.0, aht), aht)) == 0.0;
  }
}
