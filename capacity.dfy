/** Staffing calculations (agents/capacity.py): how many agents a call
    volume needs, for a service-level target or an average-speed-of-answer
    target, and how many calls a team can take. `exp` stands for
    `math.exp` throughout. */
module Capacity {
  import opened Utils
  import opened Errors
  import opened Erlang
  import opened Queues
  import opened Search
  import opened RealArith
  import Config

  /** The upper end of the `nb_agents` search. */
  const MAX_AGENTS_SEARCH: int := 65535

  /** `min(x, 1.0)` as Python evaluates it. */
  function AtMostOne(x: real): (r: real)
    ensures r <= 1.0 && r <= x && (r == x || r == 1.0)
  {
    if 1.0 < x then 1.0 else x
  }

  /** The first estimate: the offered traffic rounded half up, at least 1. */
  function StartEstimate(calls: real, aht: real): (n: int)
    requires aht > 0.0
    ensures n >= 1
    ensures calls >= 0.0 ==> n <= TrafficRate(calls, aht).Floor + 1
  {
    var erlangs := Trunc(calls * aht / Config.INTERVAL + 0.5);
    if erlangs < 1 then 1 else erlangs
  }

  /** The stability pre-loop: raise `n` while `traffic / n >= 1`. It ends at
      the least count from `n` up that exceeds the traffic. */
  function Stabilise(trafficRate: real, n: int): (r: int)
    requires n >= 1
    ensures r >= n
    ensures r == if trafficRate < n as real then n else trafficRate.Floor + 1
    decreases trafficRate.Floor + 1 - n
  {
    if trafficRate / (n as real) >= 1.0 then
      assert trafficRate >= n as real by {
        if trafficRate < n as real { DivLt(trafficRate, n as real, 1.0); }
      }
      Stabilise(trafficRate, n + 1)
    else
      assert trafficRate < n as real by {
        if trafficRate >= n as real { DivGe(trafficRate, n as real, 1.0); }
      }
      n
  }

  /** The stability pre-loop as the source runs it. */
  method RaiseUntilStable(trafficRate: real, estimate: int) returns (noAgents: int, utilisation: real)
    requires estimate >= 1
    ensures noAgents == Stabilise(trafficRate, estimate)
    ensures utilisation == trafficRate / (noAgents as real) && utilisation < 1.0
  {
    noAgents := estimate;
    utilisation := trafficRate / (noAgents as real);
    while utilisation >= 1.0
      invariant noAgents >= 1 && utilisation == trafficRate / (noAgents as real)
      invariant Stabilise(trafficRate, noAgents) == Stabilise(trafficRate, estimate)
      decreases trafficRate.Floor + 1 - noAgents
    {
      assert trafficRate >= noAgents as real by {
        if trafficRate < noAgents as real { DivLt(trafficRate, noAgents as real, 1.0); }
      }
      noAgents := noAgents + 1;
      utilisation := trafficRate / (noAgents as real);
    }
  }

  /** However the estimate rounds, the pre-loop always ends just above the
      traffic: at `floor(traffic) + 1` agents. */
  lemma StabilisedStart(calls: real, aht: real)
    requires calls >= 0.0 && aht > 0.0
    ensures Stabilise(TrafficRate(calls, aht), StartEstimate(calls, aht))
            == TrafficRate(calls, aht).Floor + 1
  {
  }

  /** The ladders' stopping test on a service level: the target is reached,
      or the level is within MAX_ACCURACY of 1. */
  predicate Meets(level: real, target: real) {
    level >= target || level > 1.0 - Config.MAX_ACCURACY
  }

  /** `sl_queued` at `n` agents: `1 - C(n) * exp((traffic - n) * t / aht)`,
      raised to 0 when negative. */
  function ServiceLevel(exp: real -> real, n: int, trafficRate: real, serviceTime: real, aht: real): (sl: real)
    requires n >= 1 && aht > 0.0
    ensures sl >= 0.0
  {
    var slQueued := QueuedLevel(exp, ErlangC(n as real, trafficRate).value, n as real, trafficRate, serviceTime, aht);
    if slQueued < 0.0 then 0.0 else slQueued
  }

  /** The test `agents_required` applies at each rung (every rung has at
      least one agent). */
  function RequiredRule(exp: real -> real, target: real, serviceTime: real, trafficRate: real, aht: real): int -> bool
    requires aht > 0.0
  {
    n => n >= 1 && trafficRate / (n as real) < 1.0 &&
         Meets(ServiceLevel(exp, n, trafficRate, serviceTime, aht), target)
  }

  /** The count `agents_required` settles on once its inputs are valid:
      always above the traffic, so its utilisation is below 1. */
  function RequiredCount(exp: real -> real, sla: real, serviceTime: real, calls: real, aht: real): (n: int)
    requires aht > 0.0
    ensures n >= 1 && n as real > TrafficRate(calls, aht)
  {
    var trafficRate := TrafficRate(calls, aht);
    var start := Stabilise(trafficRate, StartEstimate(calls, aht));
    Ladder(RequiredRule(exp, AtMostOne(sla), serviceTime, trafficRate, aht), start, start * 100)
  }

  /** agents_required. With `S = floor(traffic) + 1` the count after the
      pre-loop, the result lies in [S, 101 S] and exceeds the traffic; every
      rung below it misses the (at most 1) target; and unless the 100 S tries
      ran out, the service level at the result meets it. No input is rejected
      but a negative target or volume, or a non-positive handle time;
      `service_time` is not checked. */
  function AgentsRequiredSpec(exp: real -> real, sla: real, serviceTime: real, calls: real, aht: real): (r: Result<int>)
    ensures r.Err? <==> sla < 0.0 || calls < 0.0 || aht <= 0.0
    ensures r.Err? ==> r.error == InvalidInput
    ensures r.Ok? ==>
      var trafficRate := TrafficRate(calls, aht);
      var start := trafficRate.Floor + 1;
      var target := AtMostOne(sla);
      && start <= r.value <= 101 * start
      && r.value as real > trafficRate
      && (r.value < 101 * start ==> Meets(ServiceLevel(exp, r.value, trafficRate, serviceTime, aht), target))
      && (forall k :: start <= k < r.value ==> !Meets(ServiceLevel(exp, k, trafficRate, serviceTime, aht), target))
  {
    if sla < 0.0 || calls < 0.0 || aht <= 0.0 then Err(InvalidInput)
    else
      var trafficRate := TrafficRate(calls, aht);
      var start := Stabilise(trafficRate, StartEstimate(calls, aht));
      StabilisedStart(calls, aht);
      var rule := RequiredRule(exp, AtMostOne(sla), serviceTime, trafficRate, aht);
      var n := Ladder(rule, start, start * 100);
      RuleAboveTraffic(exp, AtMostOne(sla), serviceTime, trafficRate, aht, start, n);
      Ok(n)
  }

  /** Above the traffic, the rule is just the service-level test. */
  lemma RuleAboveTraffic(exp: real -> real, target: real, serviceTime: real, trafficRate: real, aht: real, start: int, n: int)
    requires aht > 0.0 && start >= 1 && trafficRate < start as real
    ensures forall k :: start <= k <= n ==>
      (RequiredRule(exp, target, serviceTime, trafficRate, aht)(k) <==>
       Meets(ServiceLevel(exp, k, trafficRate, serviceTime, aht), target))
  {
    forall k | start <= k <= n
      ensures RequiredRule(exp, target, serviceTime, trafficRate, aht)(k) <==>
              Meets(ServiceLevel(exp, k, trafficRate, serviceTime, aht), target)
    {
      DivLt(trafficRate, k as real, 1.0);
    }
  }

  /** One rung of the ladder: below full utilisation, the service-level test. */
  lemma RuleAtRung(exp: real -> real, target: real, serviceTime: real, trafficRate: real, aht: real, n: int)
    requires aht > 0.0 && n >= 1
    ensures RequiredRule(exp, target, serviceTime, trafficRate, aht)(n) ==
      (trafficRate / (n as real) < 1.0 && Meets(ServiceLevel(exp, n, trafficRate, serviceTime, aht), target))
  {
  }

  /** With no calls the first rung already has full service: one agent. */
  /** The ladder's floored service level and the `sla_metric` the library
      exports (clamped into [0, 1]) take the same stopping decision for any
      target of at most 1: `agents_required` stops on the first count whose
      `sla_metric` meets the target. */
  lemma ServiceLevelIsSlaMetric(exp: real -> real, n: int, target: real, serviceTime: real, calls: real, aht: real)
    requires n >= 1 && calls >= 0.0 && aht > 0.0 && serviceTime >= 0.0 && target <= 1.0
    ensures var m := SlaMetric(exp, n as real, serviceTime, calls, aht);
      m.Ok? &&
      (Meets(ServiceLevel(exp, n, TrafficRate(calls, aht), serviceTime, aht), target) <==> Meets(m.value, target))
  {
    var t := TrafficRate(calls, aht);
    var c := ErlangC(n as real, t).value;
    var q := QueuedLevel(exp, c, n as real, t, serviceTime, aht);
    assert SlaMetric(exp, n as real, serviceTime, calls, aht) == Ok(MinMax(q, 0.0, 1.0));
  }

  lemma AgentsRequiredNoCalls(exp: real -> real, sla: real, serviceTime: real, aht: real)
    requires sla >= 0.0 && aht > 0.0
    ensures AgentsRequiredSpec(exp, sla, serviceTime, 0.0, aht) == Ok(1)
  {
    assert TrafficRate(0.0, aht) == 0.0;
    assert ServiceLevel(exp, 1, 0.0, serviceTime, aht) == 1.0;
  }

  /** agents_required: the estimate, the stability pre-loop and a ladder of
      at most `100 * n` rungs. */
  method AgentsRequired(exp: real -> real, sla: real, serviceTime: real, calls: real, aht: real)
    returns (r: Result<int>)
    ensures r == AgentsRequiredSpec(exp, sla, serviceTime, calls, aht)
  {
    if sla < 0.0 || calls < 0.0 || aht <= 0.0 {
      return Err(InvalidInput);
    }
    var target := AtMostOne(sla);
    var trafficRate := TrafficRate(calls, aht);
    var noAgents, utilisation := RaiseUntilStable(trafficRate, StartEstimate(calls, aht));
    var maxIterate := noAgents * 100;
    ghost var rule := RequiredRule(exp, target, serviceTime, trafficRate, aht);
    ghost var remaining := maxIterate;
    ghost var settled := Ladder(rule, noAgents, remaining);
    for i := 0 to maxIterate
      invariant noAgents >= 1 && remaining == maxIterate - i
      invariant Ladder(rule, noAgents, remaining) == settled
    {
      remaining := remaining - 1;
      utilisation := trafficRate / (noAgents as real);
      if utilisation < 1.0 {
        var c := ErlangC(noAgents as real, trafficRate).value;
        var slQueued := QueuedLevel(exp, c, noAgents as real, trafficRate, serviceTime, aht);
        if slQueued < 0.0 {
          slQueued := 0.0;
        }
        if slQueued >= target || slQueued > 1.0 - Config.MAX_ACCURACY {
          RuleAtRung(exp, target, serviceTime, trafficRate, aht, noAgents);
          break;
        }
      }
      RuleAtRung(exp, target, serviceTime, trafficRate, aht, noAgents);
      noAgents := noAgents + 1;
    }
    return Ok(noAgents);
  }

  /** asa: the average speed of answer `secs(C / (agents * death_rate * (1 - u)))`
      with the 0.99 utilisation cap. It is never negative, rejects
      `agents <= 0`, and fails as a calculation for fewer than one agent,
      where `erlang_c` raises. Otherwise it is the answer time at Erlang C's
      waiting probability. */
  function Asa(agents: real, calls: real, aht: real): (r: Result<int>)
    ensures agents <= 0.0 || calls < 0.0 || aht <= 0.0 ==> r == Err(InvalidInput)
    ensures !(agents <= 0.0 || calls < 0.0 || aht <= 0.0) ==>
      (r.Err? <==> agents < 1.0) && (r.Err? ==> r.error == CalculationFailure)
    ensures r.Ok? ==> r.value >= 0
    ensures r.Ok? ==>
      r.value == AnswerSeconds(ErlangC(agents, TrafficRate(calls, aht)).value, agents, TrafficRate(calls, aht), aht)
  {
    if agents <= 0.0 || calls < 0.0 || aht <= 0.0 then Err(InvalidInput)
    else
      var trafficRate := TrafficRate(calls, aht);
      match ErlangC(agents, trafficRate)
      case Raises => Err(CalculationFailure)
      case Value(c) => Ok(AnswerSeconds(c, agents, trafficRate, aht))
  }

  /** `secs(c / (agents * death_rate * (1 - u)))` with the capped
      utilisation `u`, for the Erlang C value `c`: never negative, and below
      the cap `secs(c * aht / (INTERVAL * (agents - traffic)))`. */
  function AnswerSeconds(c: real, agents: real, trafficRate: real, aht: real): (r: int)
    requires c >= 0.0 && agents > 0.0 && aht > 0.0 && trafficRate >= 0.0
    ensures r >= 0
    ensures trafficRate < agents ==>
      r == Secs(c * (aht / (Config.INTERVAL * (agents - trafficRate))))
  {
    var deathRate := DeathRate(aht);
    var utilisation := CappedUtilisation(trafficRate, agents);
    AnswerTimeClosedForm(c, agents, aht, trafficRate);
    var answerTime := c / (agents * deathRate * (1.0 - utilisation));
    Secs(answerTime)
  }

  /** The answer time `C / (agents * death_rate * (1 - u))` is never negative
      and, below the cap, is `C * aht / (INTERVAL * (agents - traffic))`. */
  lemma AnswerTimeClosedForm(c: real, agents: real, aht: real, trafficRate: real)
    requires c >= 0.0 && agents > 0.0 && aht > 0.0 && trafficRate >= 0.0
    ensures c / (agents * DeathRate(aht) * (1.0 - CappedUtilisation(trafficRate, agents))) >= 0.0
    ensures trafficRate < agents ==>
      c / (agents * DeathRate(aht) * (1.0 - CappedUtilisation(trafficRate, agents)))
        == c * (aht / (Config.INTERVAL * (agents - trafficRate)))
  {
    var spare := agents * DeathRate(aht) * (1.0 - CappedUtilisation(trafficRate, agents));
    SpareCapacity(agents, aht, trafficRate);
    QueueTimeClosedForm(agents, aht, trafficRate);
    DivGe(c, spare, 0.0);
    assert c / spare == c * (1.0 / spare);
  }

  // ---------------------------------------------------------------- agents_asa

  /** The answer time `c / (n * death_rate * (1 - u))` that `agents_asa`
      computes at `n` agents for the Erlang C value `c`, where `u` is the
      utilisation left over from the pre-loop. */
  function LadderAnswerTime(c: real, n: int, deathRate: real, utilisation: real): (t: real)
    requires c >= 0.0 && n >= 1 && deathRate > 0.0 && utilisation < 1.0
    ensures t >= 0.0
  {
    MulLtRight(0.0, (n as real) * deathRate, 1.0 - utilisation);
    DivGe(c, (n as real) * deathRate * (1.0 - utilisation), 0.0);
    c / ((n as real) * deathRate * (1.0 - utilisation))
  }

  /** Whether `n` agents answer within `asaTarget` seconds by `agents_asa`'s
      test. */
  predicate AnswersWithin(trafficRate: real, deathRate: real, utilisation: real, asaTarget: real, n: int)
    requires n >= 1 && deathRate > 0.0 && utilisation < 1.0
  {
    LadderAnswerTime(ErlangC(n as real, trafficRate).value, n, deathRate, utilisation) * Config.INTERVAL <= asaTarget
  }

  /** The test `agents_asa` applies at each rung. */
  function AsaTargetRule(trafficRate: real, deathRate: real, utilisation: real, asaTarget: real): int -> bool
    requires deathRate > 0.0 && utilisation < 1.0
  {
    n => n >= 1 && AnswersWithin(trafficRate, deathRate, utilisation, asaTarget, n)
  }

  /** The rule is the answer-time test at every count of at least one agent. */
  lemma AsaTargetRuleIs(trafficRate: real, deathRate: real, utilisation: real, asaTarget: real)
    requires deathRate > 0.0 && utilisation < 1.0
    ensures forall k :: k >= 1 ==>
      (AsaTargetRule(trafficRate, deathRate, utilisation, asaTarget)(k) <==>
       AnswersWithin(trafficRate, deathRate, utilisation, asaTarget, k))
  {
  }

  /** agents_asa. With `S = floor(traffic) + 1` the count after the
      pre-loop, the result lies in [S, 101 S]; every rung below it misses the
      target; and unless the 100 S tries ran out, the result meets it. The
      test at every rung keeps the utilisation `traffic / S` of the
      pre-loop instead of recomputing it. */
  function AgentsAsaSpec(asaTarget: real, calls: real, aht: real): (r: Result<int>)
    ensures r.Err? <==> asaTarget < 0.0 || calls < 0.0 || aht <= 0.0
    ensures r.Err? ==> r.error == InvalidInput
    ensures r.Ok? ==>
      var trafficRate := TrafficRate(calls, aht);
      var start := trafficRate.Floor + 1;
      var utilisation := trafficRate / (start as real);
      && utilisation < 1.0
      && start <= r.value <= 101 * start
      && (r.value < 101 * start ==>
            AnswersWithin(trafficRate, DeathRate(aht), utilisation, asaTarget, r.value))
      && (forall k :: start <= k < r.value ==>
            !AnswersWithin(trafficRate, DeathRate(aht), utilisation, asaTarget, k))
  {
    if asaTarget < 0.0 || calls < 0.0 || aht <= 0.0 then Err(InvalidInput)
    else
      var trafficRate := TrafficRate(calls, aht);
      var start := Stabilise(trafficRate, StartEstimate(calls, aht));
      StabilisedStart(calls, aht);
      DivLt(trafficRate, start as real, 1.0);
      var utilisation := trafficRate / (start as real);
      AsaTargetRuleIs(trafficRate, DeathRate(aht), utilisation, asaTarget);
      Ok(Ladder(AsaTargetRule(trafficRate, DeathRate(aht), utilisation, asaTarget), start, start * 100))
  }

  /** agents_asa: the estimate, the pre-loop and a ladder of at most
      `100 * n` rungs on the answer time. */
  method AgentsAsa(asaTarget: real, calls: real, aht: real) returns (r: Result<int>)
    ensures r == AgentsAsaSpec(asaTarget, calls, aht)
  {
    if asaTarget < 0.0 || calls < 0.0 || aht <= 0.0 {
      return Err(InvalidInput);
    }
    var deathRate := DeathRate(aht);
    var trafficRate := TrafficRate(calls, aht);
    var noAgents, utilisation := RaiseUntilStable(trafficRate, StartEstimate(calls, aht));
    var maxIterate := noAgents * 100;
    ghost var rule := AsaTargetRule(trafficRate, deathRate, utilisation, asaTarget);
    ghost var remaining := maxIterate;
    ghost var settled := Ladder(rule, noAgents, remaining);
    for i := 0 to maxIterate
      invariant noAgents >= 1 && remaining == maxIterate - i
      invariant Ladder(rule, noAgents, remaining) == settled
    {
      remaining := remaining - 1;
      var c := ErlangC(noAgents as real, trafficRate).value;
      var answerTime := LadderAnswerTime(c, noAgents, deathRate, utilisation);
      if answerTime * Config.INTERVAL <= asaTarget {
        break;
      }
      noAgents := noAgents + 1;
    }
    return Ok(noAgents);
  }

  // ----------------------------------------------------------------- nb_agents

  /** Whether `asa` at `count` agents is within `avgSa` seconds. */
  predicate AsaWithin(count: int, calls: real, avgSa: real, aht: real) {
    var a := Asa(count as real, calls, aht);
    a.Ok? && a.value as real <= avgSa
  }

  /** The test `nb_agents` applies to each count. */
  function AsaWithinRule(calls: real, avgSa: real, aht: real): int -> bool {
    count => AsaWithin(count, calls, avgSa, aht)
  }

  /** The rule is the `asa` test at every count. */
  lemma AsaWithinRuleIs(calls: real, avgSa: real, aht: real)
    ensures forall k :: AsaWithinRule(calls, avgSa, aht)(k) <==> AsaWithin(k, calls, avgSa, aht)
  {
  }

  /** nb_agents: the least count in [1, 65535] whose `asa` is within
      `avgSa`; when no count qualifies, a calculation failure. */
  function NbAgentsSpec(calls: real, avgSa: real, aht: real): (r: Result<int>)
    ensures r == Err(InvalidInput) <==> calls < 0.0 || avgSa < 0.0 || aht <= 0.0
    ensures r.Ok? ==>
      && 1 <= r.value <= MAX_AGENTS_SEARCH
      && AsaWithin(r.value, calls, avgSa, aht)
      && forall k :: 1 <= k < r.value ==> !AsaWithin(k, calls, avgSa, aht)
    ensures r == Err(CalculationFailure) <==>
      && !(calls < 0.0 || avgSa < 0.0 || aht <= 0.0)
      && forall k :: 1 <= k <= MAX_AGENTS_SEARCH ==> !AsaWithin(k, calls, avgSa, aht)
  {
    if calls < 0.0 || avgSa < 0.0 || aht <= 0.0 then Err(InvalidInput)
    else
      var count := Ladder(AsaWithinRule(calls, avgSa, aht), 1, MAX_AGENTS_SEARCH);
      AsaWithinRuleIs(calls, avgSa, aht);
      if count <= MAX_AGENTS_SEARCH then Ok(count) else Err(CalculationFailure)
  }

  /** nb_agents: a first-fit count over [1, 65535]. */
  method NbAgents(calls: real, avgSa: real, aht: real) returns (r: Result<int>)
    ensures r == NbAgentsSpec(calls, avgSa, aht)
  {
    if calls < 0.0 || avgSa < 0.0 || aht <= 0.0 {
      return Err(InvalidInput);
    }
    var maxIterate := MAX_AGENTS_SEARCH;
    ghost var rule := AsaWithinRule(calls, avgSa, aht);
    for count := 1 to maxIterate + 1
      invariant Ladder(rule, count, maxIterate + 1 - count) == Ladder(rule, 1, maxIterate)
    {
      var a := Asa(count as real, calls, aht);
      if a.value as real <= avgSa {
        return Ok(count);
      }
    }
    return Err(CalculationFailure);
  }

  // -------------------------------------------------------------- call_capacity

  /** `agents_required` at an integer call volume. */
  function RequiredAt(exp: real -> real, sla: real, serviceTime: real, calls: int, aht: real): (n: int)
    requires aht > 0.0
    ensures calls >= 0 && sla >= 0.0 ==>
      AgentsRequiredSpec(exp, sla, serviceTime, calls as real, aht) == Ok(n)
  {
    RequiredCount(exp, sla, serviceTime, calls as real, aht)
  }

  /** Agents needed per call volume, as `call_capacity` compares them. */
  function RequiredNeeds(exp: real -> real, sla: real, serviceTime: real, aht: real): int -> real
    requires aht > 0.0
  {
    calls => RequiredAt(exp, sla, serviceTime, calls, aht) as real
  }

  /** The closure is `agents_required` at every volume. */
  lemma RequiredNeedsIs(exp: real -> real, sla: real, serviceTime: real, aht: real)
    requires aht > 0.0
    ensures forall c :: RequiredNeeds(exp, sla, serviceTime, aht)(c) == RequiredAt(exp, sla, serviceTime, c, aht) as real
  {
  }

  /** The call volume `call_capacity` starts from: `int_ceiling(INTERVAL / aht)`
      calls per agent for the whole agents. */
  function CapacityStart(noAgents: real, aht: real): (calls: int)
    requires noAgents >= 0.0 && aht > 0.0
    ensures calls >= 0
  {
    DivGe(Config.INTERVAL, aht, 0.0);
    var perAgent := IntCeiling(Config.INTERVAL / aht);
    var agents := Trunc(noAgents);
    assert perAgent * agents >= 0 by { MulNonneg(perAgent as real, agents as real); }
    perAgent * agents
  }

  /** call_capacity: the largest volume, from the starting volume down, that
      `int(no_agents)` agents can take under `agents_required`; every larger
      volume it tries needs more agents. It is 0 when no positive volume
      fits. */
  function CallCapacitySpec(exp: real -> real, noAgents: real, sla: real, serviceTime: real, aht: real): (r: Result<real>)
    ensures r.Err? <==> noAgents < 0.0 || sla < 0.0 || serviceTime < 0.0 || aht <= 0.0
    ensures r.Err? ==> r.error == InvalidInput
    ensures r.Ok? ==>
      var agents := Trunc(noAgents);
      var start := CapacityStart(noAgents, aht);
      var calls := r.value.Floor;
      && r.value == calls as real
      && 0 <= calls <= start
      && (calls > 0 ==> RequiredAt(exp, sla, serviceTime, calls, aht) <= agents)
      && forall c :: calls < c <= start ==> RequiredAt(exp, sla, serviceTime, c, aht) > agents
  {
    if noAgents < 0.0 || sla < 0.0 || serviceTime < 0.0 || aht <= 0.0 then Err(InvalidInput)
    else
      var agents := Trunc(noAgents);
      var calls := Descend(RequiredNeeds(exp, sla, serviceTime, aht), agents as real, CapacityStart(noAgents, aht));
      RequiredNeedsIs(exp, sla, serviceTime, aht);
      Ok(calls as real)
  }

  /** call_capacity never falls when agents are added. */
  lemma CallCapacityMonotone(exp: real -> real, noAgents: real, more: real, sla: real, serviceTime: real, aht: real)
    requires 0.0 <= noAgents <= more && sla >= 0.0 && serviceTime >= 0.0 && aht > 0.0
    ensures CallCapacitySpec(exp, noAgents, sla, serviceTime, aht).value
            <= CallCapacitySpec(exp, more, sla, serviceTime, aht).value
  {
    var perAgent := IntCeiling(Config.INTERVAL / aht);
    DivGe(Config.INTERVAL, aht, 0.0);
    TruncMonotone(noAgents, more);
    IntMulLeLeft(perAgent, Trunc(noAgents), Trunc(more));
    RequiredNeedsIs(exp, sla, serviceTime, aht);
    DescendMonotone(RequiredNeeds(exp, sla, serviceTime, aht), Trunc(noAgents) as real, Trunc(more) as real,
                    CapacityStart(noAgents, aht), CapacityStart(more, aht));
  }

  /** `z * x <= z * y` for whole numbers, `x <= y` and `z >= 0`. */
  lemma IntMulLeLeft(z: int, x: int, y: int)
    requires x <= y && z >= 0
    ensures z * x <= z * y
  {
    assert z * y - z * x == z * (y - x);
  }

  /** call_capacity: lower the volume one call at a time until
      `agents_required` fits the agents. */
  method CallCapacity(exp: real -> real, noAgents: real, sla: real, serviceTime: real, aht: real)
    returns (r: Result<real>)
    ensures r == CallCapacitySpec(exp, noAgents, sla, serviceTime, aht)
  {
    if noAgents < 0.0 || sla < 0.0 || serviceTime < 0.0 || aht <= 0.0 {
      return Err(InvalidInput);
    }
    var calls := LowerCalls(exp, Trunc(noAgents), sla, serviceTime, aht, CapacityStart(noAgents, aht));
    return Ok(calls as real);
  }

  /** The `while` loop of `call_capacity`, from `start` calls down, against
      the whole number of agents `xNoAgent`. */
  method LowerCalls(exp: real -> real, xNoAgent: int, sla: real, serviceTime: real, aht: real, start: int)
    returns (calls: int)
    requires sla >= 0.0 && serviceTime >= 0.0 && aht > 0.0 && start >= 0
    ensures calls == Descend(RequiredNeeds(exp, sla, serviceTime, aht), xNoAgent as real, start)
  {
    calls := start;
    ghost var needs := RequiredNeeds(exp, sla, serviceTime, aht);
    ghost var fits := Descend(needs, xNoAgent as real, calls);
    var xAgent := AgentsRequired(exp, sla, serviceTime, calls as real, aht);
    while xAgent.value > xNoAgent && calls > 0
      invariant calls >= 0
      invariant xAgent == Ok(RequiredAt(exp, sla, serviceTime, calls, aht))
      invariant Descend(needs, xNoAgent as real, calls) == fits
      decreases calls
    {
      calls := calls - 1;
      xAgent := AgentsRequired(exp, sla, serviceTime, calls as real, aht);
    }
  }

  // --------------------------------------------------------- fractional_agents

  /** One state of the fractional ladder: the agent count, the service
      level last computed and the one before it. */
  datatype Rung = Rung(agents: int, level: real, previous: real)

  /** `sl_queued` as `fractional_agents` keeps it: clamped into [0, 1]. */
  function FractionalLevel(exp: real -> real, n: int, trafficRate: real, serviceTime: real, aht: real): (sl: real)
    requires n >= 1 && aht > 0.0
    ensures 0.0 <= sl <= 1.0
    ensures sl == ServiceLevel(exp, n, trafficRate, serviceTime, aht) ||
            (sl == 1.0 && ServiceLevel(exp, n, trafficRate, serviceTime, aht) > 1.0)
  {
    var slQueued := ServiceLevel(exp, n, trafficRate, serviceTime, aht);
    if slQueued > 1.0 then 1.0 else slQueued
  }

  /** The level `fractional_agents` computes in place from the Erlang C value
      `c`, raised to 0 and cut at 1, is `FractionalLevel`. */
  lemma FractionalLevelFrom(exp: real -> real, c: real, n: int, trafficRate: real, serviceTime: real, aht: real)
    requires n >= 1 && aht > 0.0 && c == ErlangC(n as real, trafficRate).value
    ensures var raw := QueuedLevel(exp, c, n as real, trafficRate, serviceTime, aht);
            var floored := if raw < 0.0 then 0.0 else raw;
            (if floored > 1.0 then 1.0 else floored) == FractionalLevel(exp, n, trafficRate, serviceTime, aht)
  {
  }

  /** The clamped levels at every count, as the function the fractional
      ladder climbs over (counts below 1 are never asked for). */
  function FractionalLevels(exp: real -> real, trafficRate: real, serviceTime: real, aht: real): int -> real
    requires aht > 0.0
  {
    n => if n >= 1 then FractionalLevel(exp, n, trafficRate, serviceTime, aht) else 0.0
  }

  /** `FractionalLevels` applied at a count of at least 1. */
  lemma FractionalLevelsIs(exp: real -> real, trafficRate: real, serviceTime: real, aht: real)
    requires aht > 0.0
    ensures forall n :: n >= 1 ==>
      FractionalLevels(exp, trafficRate, serviceTime, aht)(n) == FractionalLevel(exp, n, trafficRate, serviceTime, aht)
  {
  }

  /** The ladder of `fractional_agents` over the levels `levels`, carrying
      the last two levels. A level above the target comes with a previous
      level at or below it. */
  function FractionalLadder(levels: int -> real, target: real, trafficRate: real, s: Rung, fuel: nat): (r: Rung)
    requires s.level <= target
    ensures r.agents >= s.agents
    ensures r.level > target ==> r.previous <= target
    decreases fuel
  {
    if fuel == 0 then s
    else
      var last := s.level;
      var n := s.agents;
      if n >= 1 && trafficRate / (n as real) < 1.0 then
        var sl := levels(n);
        if Meets(sl, target) then Rung(n, sl, last)
        else FractionalLadder(levels, target, trafficRate, Rung(n + 1, sl, last), fuel - 1)
      else FractionalLadder(levels, target, trafficRate, Rung(n + 1, last, last), fuel - 1)
  }

  /** One rung of the fractional ladder. */
  lemma FractionalLadderStep(levels: int -> real, target: real, trafficRate: real, s: Rung, fuel: nat)
    requires s.level <= target && s.agents >= 1 && fuel > 0
    ensures trafficRate / (s.agents as real) < 1.0 ==>
      FractionalLadder(levels, target, trafficRate, s, fuel)
        == if Meets(levels(s.agents), target) then Rung(s.agents, levels(s.agents), s.level)
           else FractionalLadder(levels, target, trafficRate, Rung(s.agents + 1, levels(s.agents), s.level), fuel - 1)
    ensures trafficRate / (s.agents as real) >= 1.0 ==>
      FractionalLadder(levels, target, trafficRate, s, fuel)
        == FractionalLadder(levels, target, trafficRate, Rung(s.agents + 1, s.level, s.level), fuel - 1)
  {
  }

  /** When the levels stop the ladder exactly where `rule` accepts, the
      fractional ladder ends on the count `Ladder` finds for `rule`. */
  lemma {:induction false} FractionalLadderAgents(levels: int -> real, rule: int -> bool, target: real,
                                                  trafficRate: real, s: Rung, fuel: nat)
    requires s.level <= target
    requires forall k :: k >= s.agents ==>
      (rule(k) <==> k >= 1 && trafficRate / (k as real) < 1.0 && Meets(levels(k), target))
    ensures FractionalLadder(levels, target, trafficRate, s, fuel).agents == Ladder(rule, s.agents, fuel)
    decreases fuel
  {
    if fuel > 0 {
      var n := s.agents;
      if n >= 1 && trafficRate / (n as real) < 1.0 {
        if !Meets(levels(n), target) {
          FractionalLadderAgents(levels, rule, target, trafficRate, Rung(n + 1, levels(n), s.level), fuel - 1);
        }
      } else {
        FractionalLadderAgents(levels, rule, target, trafficRate, Rung(n + 1, s.level, s.level), fuel - 1);
      }
    }
  }

  /** Above the traffic every rung computes its level, so a final level
      above the target is the level at the final count, and the one before it
      is the level one agent down, or the starting level when the ladder
      stopped on its first rung. */
  lemma {:induction false} FractionalLadderSamples(levels: int -> real, target: real, trafficRate: real,
                                                   s: Rung, fuel: nat)
    requires s.level <= target && s.agents >= 1 && trafficRate < s.agents as real
    ensures var r := FractionalLadder(levels, target, trafficRate, s, fuel);
      r.level > target ==>
        r.level == levels(r.agents) &&
        r.previous == (if r.agents > s.agents then levels(r.agents - 1) else s.level)
    decreases fuel
  {
    if fuel > 0 {
      var n := s.agents;
      DivLt(trafficRate, n as real, 1.0);
      if !Meets(levels(n), target) {
        FractionalLadderSamples(levels, target, trafficRate, Rung(n + 1, levels(n), s.level), fuel - 1);
      }
    }
  }

  /** `FractionalLadderSamples` for a ladder started, as `fractional_agents`
      starts it, at level 0.0 and given 100 tries per starting agent. */
  lemma FractionalLadderFromStart(levels: int -> real, target: real, trafficRate: real, start: int, r: Rung)
    requires 0.0 <= target && start >= 1 && trafficRate < start as real
    requires r == FractionalLadder(levels, target, trafficRate, Rung(start, 0.0, 0.0), start * 100)
    ensures r.agents >= start
    ensures r.level > target ==> r.level == levels(r.agents)
    ensures r.level > target && r.agents > start ==> r.previous == levels(r.agents - 1)
    ensures r.level > target && r.agents <= start ==> r.previous == 0.0
  {
    FractionalLadderSamples(levels, target, trafficRate, Rung(start, 0.0, 0.0), start * 100);
  }

  /** `FractionalLevels` applied at one count, when it is at least 1. */
  lemma FractionalLevelsAt(exp: real -> real, trafficRate: real, serviceTime: real, aht: real, n: int)
    requires aht > 0.0
    ensures n >= 1 ==>
      FractionalLevels(exp, trafficRate, serviceTime, aht)(n) == FractionalLevel(exp, n, trafficRate, serviceTime, aht)
  {
  }

  /** Clamping the level at 1 never changes a stopping decision against a
      target of at most 1: the clamped levels stop the fractional ladder
      exactly where the rule of `agents_required` accepts. */
  lemma ClampKeepsDecision(exp: real -> real, target: real, serviceTime: real, trafficRate: real, aht: real)
    requires aht > 0.0 && target <= 1.0
    ensures forall k ::
      (RequiredRule(exp, target, serviceTime, trafficRate, aht)(k) <==>
       k >= 1 && trafficRate / (k as real) < 1.0 && Meets(FractionalLevels(exp, trafficRate, serviceTime, aht)(k), target))
  {
    forall k
      ensures RequiredRule(exp, target, serviceTime, trafficRate, aht)(k) <==>
              k >= 1 && trafficRate / (k as real) < 1.0 &&
              Meets(FractionalLevels(exp, trafficRate, serviceTime, aht)(k), target)
    {
      if k >= 1 {
        RuleAtRung(exp, target, serviceTime, trafficRate, aht, k);
      }
    }
  }

  /** The share of the last agent needed to lift the level from `previous`
      to `target` when that agent lifts it to `level`: `(target - previous) /
      (level - previous)`, in [0, 1) and 0 only when `previous` already
      reached the target. */
  function Share(target: real, previous: real, level: real): (q: real)
    requires previous <= target < level
    ensures 0.0 <= q < 1.0
    ensures q == 0.0 <==> target == previous
  {
    var oneAgentEffect := level - previous;
    var fract := target - previous;
    DivGe(fract, oneAgentEffect, 0.0);
    DivLt(fract, oneAgentEffect, 1.0);
    fract / oneAgentEffect
  }

  /** The final interpolation: when the last level passed the target, the
      share of the last agent needed to reach it is added to the agents
      before it. The result never exceeds the count and is less than one
      agent below it. */
  function Interpolate(s: Rung, target: real): (r: real)
    requires s.level > target ==> s.previous <= target
    ensures (s.agents - 1) as real <= r <= s.agents as real
    ensures r < s.agents as real <==> s.level > target
  {
    if s.level > target then Share(target, s.previous, s.level) + (s.agents - 1) as real
    else
      s.agents as real
  }

  /** `Interpolate` unfolded for a rung given by its parts. */
  lemma InterpolateIs(n: int, level: real, previous: real, target: real)
    requires level > target ==> previous <= target
    ensures Interpolate(Rung(n, level, previous), target)
            == if level > target then Share(target, previous, level) + (n - 1) as real
               else n as real
  {
  }

  /** The value `fractional_agents` returns once its inputs are valid. */
  function FractionalCount(exp: real -> real, sla: real, serviceTime: real, calls: real, aht: real): (r: real)
    requires sla >= 0.0 && aht > 0.0
    ensures (RequiredCount(exp, sla, serviceTime, calls, aht) - 1) as real <= r
            <= RequiredCount(exp, sla, serviceTime, calls, aht) as real
  {
    FractionalSettledCount(exp, sla, serviceTime, calls, aht);
    Interpolate(FractionalSettled(exp, sla, serviceTime, calls, aht), AtMostOne(sla))
  }

  /** The rung the fractional ladder of `fractional_agents` stops on. A
      level above the target comes with a previous level at or below it. */
  function FractionalSettled(exp: real -> real, sla: real, serviceTime: real, calls: real, aht: real): (s: Rung)
    requires sla >= 0.0 && aht > 0.0
    ensures s.level > AtMostOne(sla) ==> s.previous <= AtMostOne(sla)
  {
    var trafficRate := TrafficRate(calls, aht);
    var start := Stabilise(trafficRate, StartEstimate(calls, aht));
    FractionalLadder(FractionalLevels(exp, trafficRate, serviceTime, aht), AtMostOne(sla), trafficRate,
                     Rung(start, 0.0, 0.0), start * 100)
  }

  /** The fractional ladder settles on the count of `agents_required`. */
  lemma FractionalSettledCount(exp: real -> real, sla: real, serviceTime: real, calls: real, aht: real)
    requires sla >= 0.0 && aht > 0.0
    ensures FractionalSettled(exp, sla, serviceTime, calls, aht).agents == RequiredCount(exp, sla, serviceTime, calls, aht)
  {
    var trafficRate := TrafficRate(calls, aht);
    var start := Stabilise(trafficRate, StartEstimate(calls, aht));
    var target := AtMostOne(sla);
    var levels := FractionalLevels(exp, trafficRate, serviceTime, aht);
    ClampKeepsDecision(exp, target, serviceTime, trafficRate, aht);
    FractionalLadderAgents(levels, RequiredRule(exp, target, serviceTime, trafficRate, aht), target, trafficRate,
                           Rung(start, 0.0, 0.0), start * 100);
  }

  /** The settled rung is never below the first rung tried. When its level
      overshot the target, that level is the clamped service level at its
      count, and on the first rung the level before it is still 0.0, the
      initial `sl_queued` (`FractionalSettledPrevious` covers later rungs). */
  lemma FractionalSettledSamples(exp: real -> real, sla: real, serviceTime: real, calls: real, aht: real)
    requires sla >= 0.0 && aht > 0.0
    ensures var s := FractionalSettled(exp, sla, serviceTime, calls, aht);
      s.agents >= Stabilise(TrafficRate(calls, aht), StartEstimate(calls, aht)) >= 1
    ensures var s := FractionalSettled(exp, sla, serviceTime, calls, aht);
      s.level > AtMostOne(sla) ==> s.level == FractionalLevel(exp, s.agents, TrafficRate(calls, aht), serviceTime, aht)
    ensures var s := FractionalSettled(exp, sla, serviceTime, calls, aht);
      s.level > AtMostOne(sla) && s.agents == Stabilise(TrafficRate(calls, aht), StartEstimate(calls, aht)) ==>
        s.previous == 0.0
  {
    var trafficRate := TrafficRate(calls, aht);
    var s := FractionalSettled(exp, sla, serviceTime, calls, aht);
    FractionalLadderFromStart(FractionalLevels(exp, trafficRate, serviceTime, aht), AtMostOne(sla),
      trafficRate, Stabilise(trafficRate, StartEstimate(calls, aht)), s);
    FractionalLevelsAt(exp, trafficRate, serviceTime, aht, s.agents);
  }

  /** When the settled rung is not the first one tried, its previous level
      is the clamped service level one agent down, at `below`. */
  lemma FractionalSettledPrevious(exp: real -> real, sla: real, serviceTime: real, calls: real, aht: real, below: int)
    requires sla >= 0.0 && aht > 0.0
    requires FractionalSettled(exp, sla, serviceTime, calls, aht).level > AtMostOne(sla)
    requires below + 1 == FractionalSettled(exp, sla, serviceTime, calls, aht).agents
    requires below >= Stabilise(TrafficRate(calls, aht), StartEstimate(calls, aht))
    ensures FractionalSettled(exp, sla, serviceTime, calls, aht).previous
            == FractionalLevel(exp, below, TrafficRate(calls, aht), serviceTime, aht)
  {
    var trafficRate := TrafficRate(calls, aht);
    var s := FractionalSettled(exp, sla, serviceTime, calls, aht);
    FractionalLadderFromStart(FractionalLevels(exp, trafficRate, serviceTime, aht), AtMostOne(sla),
      trafficRate, Stabilise(trafficRate, StartEstimate(calls, aht)), s);
    FractionalLevelsAt(exp, trafficRate, serviceTime, aht, below);
  }

  /** fractional_agents: `agents_required`'s count `N` made fractional. The
      result lies in [N - 1, N]; it is below N exactly when the last service
      level overshot the target and the interpolation applied. Unlike
      `agents_required`, a negative service time is rejected. */
  function FractionalAgentsSpec(exp: real -> real, sla: real, serviceTime: real, calls: real, aht: real): (r: Result<real>)
    ensures r.Err? <==> sla < 0.0 || calls < 0.0 || aht <= 0.0 || serviceTime < 0.0
    ensures r.Err? ==> r.error == InvalidInput
    ensures r.Ok? ==>
      var n := AgentsRequiredSpec(exp, sla, serviceTime, calls, aht).value;
      && (n - 1) as real <= r.value <= n as real
      && (r.value < n as real <==> FractionalSettled(exp, sla, serviceTime, calls, aht).level > AtMostOne(sla))
  {
    if sla < 0.0 || calls < 0.0 || aht <= 0.0 || serviceTime < 0.0 then Err(InvalidInput)
    else
      FractionalSettledCount(exp, sla, serviceTime, calls, aht);
      Ok(FractionalCount(exp, sla, serviceTime, calls, aht))
  }

  /** What `fractional_agents` returns, in terms of the rung its ladder
      settles on: when the level there passed the target, the share of the
      last agent needed to reach the target from the level before it, added
      to the agents before it; otherwise the count itself. */
  lemma FractionalAgentsSamples(exp: real -> real, sla: real, serviceTime: real, calls: real, aht: real)
    requires sla >= 0.0 && calls >= 0.0 && aht > 0.0 && serviceTime >= 0.0
    ensures var s := FractionalSettled(exp, sla, serviceTime, calls, aht);
      var r := FractionalAgentsSpec(exp, sla, serviceTime, calls, aht).value;
      s.level > AtMostOne(sla) ==>
        s.previous <= AtMostOne(sla) && r == Share(AtMostOne(sla), s.previous, s.level) + (s.agents - 1) as real
    ensures var s := FractionalSettled(exp, sla, serviceTime, calls, aht);
      s.level <= AtMostOne(sla) ==> FractionalAgentsSpec(exp, sla, serviceTime, calls, aht).value == s.agents as real
  {
    var s := FractionalSettled(exp, sla, serviceTime, calls, aht);
    assert FractionalAgentsSpec(exp, sla, serviceTime, calls, aht).value == Interpolate(s, AtMostOne(sla));
    assert Rung(s.agents, s.level, s.previous) == s;
    InterpolateIs(s.agents, s.level, s.previous, AtMostOne(sla));
  }

  /** fractional_agents: the ladder of `agents_required` keeping the last two
      service levels, then the interpolation. */
  method FractionalAgents(exp: real -> real, sla: real, serviceTime: real, calls: real, aht: real)
    returns (r: Result<real>)
    ensures r == FractionalAgentsSpec(exp, sla, serviceTime, calls, aht)
  {
    if sla < 0.0 || calls < 0.0 || aht <= 0.0 || serviceTime < 0.0 {
      return Err(InvalidInput);
    }
    var target := AtMostOne(sla);
    var trafficRate := TrafficRate(calls, aht);
    var noAgents, utilisation := RaiseUntilStable(trafficRate, StartEstimate(calls, aht));
    var slQueued, lastSlq;
    noAgents, slQueued, lastSlq := ClimbFractionalLadder(exp, target, serviceTime, trafficRate, aht, noAgents);
    assert Rung(noAgents, slQueued, lastSlq) == FractionalSettled(exp, sla, serviceTime, calls, aht);
    InterpolateIs(noAgents, slQueued, lastSlq, target);
    var noAgentsSng := noAgents as real;
    if slQueued > target {
      noAgentsSng := Share(target, lastSlq, slQueued) + (noAgents - 1) as real;
    }
    assert noAgentsSng == FractionalCount(exp, sla, serviceTime, calls, aht);
    return Ok(noAgentsSng);
  }

  /** The `for` loop of `fractional_agents`: at most `100 * start` rungs,
      keeping the last service level and the one before it. */
  method ClimbFractionalLadder(exp: real -> real, target: real, serviceTime: real, trafficRate: real, aht: real,
                               start: int)
    returns (noAgents: int, slQueued: real, lastSlq: real)
    requires aht > 0.0 && 0.0 <= target && start >= 1
    ensures Rung(noAgents, slQueued, lastSlq)
            == FractionalLadder(FractionalLevels(exp, trafficRate, serviceTime, aht), target, trafficRate,
                                Rung(start, 0.0, 0.0), start * 100)
  {
    noAgents := start;
    slQueued := 0.0;
    var maxIterate := noAgents * 100;
    lastSlq := 0.0;
    ghost var levels := FractionalLevels(exp, trafficRate, serviceTime, aht);
    ghost var remaining := maxIterate;
    ghost var settled := FractionalLadder(levels, target, trafficRate, Rung(noAgents, 0.0, 0.0), remaining);
    FractionalLevelsIs(exp, trafficRate, serviceTime, aht);
    for i := 0 to maxIterate
      invariant noAgents >= 1 && slQueued <= target && remaining == maxIterate - i
      invariant FractionalLadder(levels, target, trafficRate, Rung(noAgents, slQueued, lastSlq), remaining) == settled
    {
      FractionalLadderStep(levels, target, trafficRate, Rung(noAgents, slQueued, lastSlq), remaining);
      remaining := remaining - 1;
      lastSlq := slQueued;
      var utilisation := trafficRate / (noAgents as real);
      if utilisation < 1.0 {
        var c := ErlangC(noAgents as real, trafficRate).value;
        FractionalLevelFrom(exp, c, noAgents, trafficRate, serviceTime, aht);
        slQueued := QueuedLevel(exp, c, noAgents as real, trafficRate, serviceTime, aht);
        if slQueued < 0.0 {
          slQueued := 0.0;
        }
        if slQueued > 1.0 {
          slQueued := 1.0;
        }
        if slQueued >= target || slQueued > 1.0 - Config.MAX_ACCURACY {
          break;
        }
      }
      noAgents := noAgents + 1;
    }
  }

  // -------------------------------------------------- fractional_call_capacity

  /** `fractional_agents` at an integer call volume. */
  function FractionalAt(exp: real -> real, sla: real, serviceTime: real, calls: int, aht: real): (x: real)
    requires sla >= 0.0 && aht > 0.0
    ensures calls >= 0 && serviceTime >= 0.0 ==>
      FractionalAgentsSpec(exp, sla, serviceTime, calls as real, aht) == Ok(x)
  {
    FractionalCount(exp, sla, serviceTime, calls as real, aht)
  }

  /** Fractional agents needed per call volume. */
  function FractionalNeeds(exp: real -> real, sla: real, serviceTime: real, aht: real): int -> real
    requires sla >= 0.0 && aht > 0.0
  {
    calls => FractionalAt(exp, sla, serviceTime, calls, aht)
  }

  /** The closure is `fractional_agents` at every volume. */
  lemma FractionalNeedsIs(exp: real -> real, sla: real, serviceTime: real, aht: real)
    requires sla >= 0.0 && aht > 0.0
    ensures forall c :: FractionalNeeds(exp, sla, serviceTime, aht)(c) == FractionalAt(exp, sla, serviceTime, c, aht)
  {
  }

  /** The call volume `fractional_call_capacity` starts from:
      `int_ceiling((INTERVAL / aht) * no_agents)`. */
  function FractionalCapacityStart(noAgents: real, aht: real): (calls: int)
    requires noAgents >= 0.0 && aht > 0.0
    ensures calls >= 0
  {
    DivGe(Config.INTERVAL, aht, 0.0);
    MulNonneg(Config.INTERVAL / aht, noAgents);
    IntCeiling((Config.INTERVAL / aht) * noAgents)
  }

  /** fractional_call_capacity: the largest volume, from the starting volume
      down, whose fractional agents fit `no_agents`; every larger volume it
      tries needs more. It is 0 when no positive volume fits. */
  function FractionalCallCapacitySpec(exp: real -> real, noAgents: real, sla: real, serviceTime: real, aht: real)
    : (r: Result<real>)
    ensures r.Err? <==> noAgents < 0.0 || sla < 0.0 || serviceTime < 0.0 || aht <= 0.0
    ensures r.Err? ==> r.error == InvalidInput
    ensures r.Ok? ==>
      var start := FractionalCapacityStart(noAgents, aht);
      var calls := r.value.Floor;
      && r.value == calls as real
      && 0 <= calls <= start
      && (calls > 0 ==> FractionalAt(exp, sla, serviceTime, calls, aht) <= noAgents)
      && forall c :: calls < c <= start ==> FractionalAt(exp, sla, serviceTime, c, aht) > noAgents
  {
    if noAgents < 0.0 || sla < 0.0 || serviceTime < 0.0 || aht <= 0.0 then Err(InvalidInput)
    else
      var calls := Descend(FractionalNeeds(exp, sla, serviceTime, aht), noAgents, FractionalCapacityStart(noAgents, aht));
      FractionalNeedsIs(exp, sla, serviceTime, aht);
      Ok(calls as real)
  }

  /** fractional_call_capacity never falls when agents are added. */
  lemma FractionalCallCapacityMonotone(exp: real -> real, noAgents: real, more: real, sla: real,
                                       serviceTime: real, aht: real)
    requires 0.0 <= noAgents <= more && sla >= 0.0 && serviceTime >= 0.0 && aht > 0.0
    ensures FractionalCallCapacitySpec(exp, noAgents, sla, serviceTime, aht).value
            <= FractionalCallCapacitySpec(exp, more, sla, serviceTime, aht).value
  {
    DivGe(Config.INTERVAL, aht, 0.0);
    MulLeLeft(Config.INTERVAL / aht, noAgents, more);
    IntCeilingMonotone((Config.INTERVAL / aht) * noAgents, (Config.INTERVAL / aht) * more);
    FractionalNeedsIs(exp, sla, serviceTime, aht);
    DescendMonotone(FractionalNeeds(exp, sla, serviceTime, aht), noAgents, more,
                    FractionalCapacityStart(noAgents, aht), FractionalCapacityStart(more, aht));
  }

  /** fractional_call_capacity: lower the volume one call at a time until
      `fractional_agents` fits the agents. */
  method FractionalCallCapacity(exp: real -> real, noAgents: real, sla: real, serviceTime: real, aht: real)
    returns (r: Result<real>)
    ensures r == FractionalCallCapacitySpec(exp, noAgents, sla, serviceTime, aht)
  {
    if noAgents < 0.0 || sla < 0.0 || serviceTime < 0.0 || aht <= 0.0 {
      return Err(InvalidInput);
    }
    var calls := LowerFractionalCalls(exp, noAgents, sla, serviceTime, aht, FractionalCapacityStart(noAgents, aht));
    return Ok(calls as real);
  }

  /** The `while` loop of `fractional_call_capacity`, from `start` calls down. */
  method LowerFractionalCalls(exp: real -> real, noAgents: real, sla: real, serviceTime: real, aht: real, start: int)
    returns (calls: int)
    requires noAgents >= 0.0 && sla >= 0.0 && serviceTime >= 0.0 && aht > 0.0 && start >= 0
    ensures calls == Descend(FractionalNeeds(exp, sla, serviceTime, aht), noAgents, start)
  {
    var xNoAgent := noAgents;
    calls := start;
    ghost var needs := FractionalNeeds(exp, sla, serviceTime, aht);
    ghost var fits := Descend(needs, xNoAgent, calls);
    var xAgent := FractionalAgents(exp, sla, serviceTime, calls as real, aht);
    while xAgent.value > xNoAgent && calls > 0
      invariant calls >= 0
      invariant xAgent == Ok(FractionalAt(exp, sla, serviceTime, calls, aht))
      invariant Descend(needs, xNoAgent, calls) == fits
      decreases calls
    {
      calls := calls - 1;
      xAgent := FractionalAgents(exp, sla, serviceTime, calls as real, aht);
    }
  }
}
