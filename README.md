# mod_turbotab numerical core, modelled in Dafny

mod_turbotab is a call-centre staffing library. From a call volume per
hour, an average handle time (AHT) and a target, it answers planning
questions:

- how many agents are needed for a service level or for an average speed of
  answer (ASA);
- how many calls a team can take;
- how many trunks (lines) the calls need;
- what the queue looks like for a given team.

Every answer rests on the Erlang formulas: Erlang B for blocking, Erlang C
for queueing, extended Erlang B with retries, and Engset B for a finite
source. This project models the library's numerical core:

- the rounding helpers (`utils.py`);
- the four Erlang evaluators and the traffic inversion (`calculations/`);
- the five queue metrics (`queues/queues.py`);
- the seven staffing functions, six searches and `asa` (`agents/capacity.py`);
- `number_trunks` and `trunks_required` (`trunks/trunks.py`).

The model takes the source's own form. Pure formulas are Dafny functions.
Each loop of the source is a method whose `ensures` ties its result to a
recursive specification function. The properties are proved about those
functions.

- **Numbers.** Python floats are exact `real`s. Python `int()` on a float
  is `Utils.Trunc`, which truncates toward zero.
- **Failures.**
  - The library's two exception classes become `Errors.Result`, tagged
    `InvalidInput` or `CalculationFailure`.
  - Every `except Exception` handler re-raises as `CalculationFailure`.
  - The raw evaluators have no handler. An error escaping one of them (an
    unset variable, a division by zero) is `Errors.Outcome.Raises`.
- **`math.exp`** is a parameter `exp: real -> real`. No proof depends on
  its values.
- **Configuration.** `Config.INTERVAL` is 3600 seconds and
  `Config.MAX_ACCURACY` is 1e-5. The configuration module is not part of
  this model. Proofs use only `INTERVAL > 0` and `0 < MAX_ACCURACY < 1`.
- **Searches.** Two generic searches in module `Search` state what the
  searches find:
  - `Ladder`: the first count a rule accepts, with a bounded number of
    tries;
  - `Descend`: lower a call volume until it fits under a limit.

  The staffing and trunk searches are each proved equal to one of them,
  with the source's own start, cap and stopping test.

Findings of the proofs about the code as written:

- After the stability pre-loop of `agents_required`, `agents_asa` and
  `fractional_agents`, the agent count is always `floor(traffic) + 1`
  (`Capacity.StabilisedStart`).
- In `trunks_required`, the raise of a count below 1 to 1 never applies:
  `number_trunks` only ever returns counts of at least 1
  (`Trunks.TrunksFor`).

Behaviour as the code has it, where a plain reading of the formulas says
otherwise:

- `erlang_b` with `0 <= servers < 1` does not return 1. Its loop never runs
  and the return reads an unset `b`, so it raises. `erlang_c` and every
  caller inherit this.
- `traffic` stops doubling as soon as Erlang B is at least the target, not
  only once it exceeds it.
- `traffic`'s decimal step is the smallest power of ten above a hundredth
  of the upper bound, not the largest one below it.
- `number_trunks` fails outright when `int_ceiling(servers)` is 0, because
  Erlang B raises at 0 trunks.
- In `fractional_agents`, when the first rung tried (`floor(traffic) + 1`
  agents) already overshoots the target, `last_slq` is still the initial
  0.0, so the result is `sla / sl(N) + N - 1` rather than an interpolation
  between two service levels (`Capacity.FractionalSettledSamples`).

## Model

| member | source | states |
|---|---|---|
| Utils.Trunc | utils.py:39 | Python `int()` on a float: the whole number next to `x` toward zero |
| Utils.TruncNeg | utils.py:27 | truncation is odd: `int(-x) = -int(x)` |
| Utils.TruncOfInt | calculations/erlang.py:19 | truncating a whole number gives it back |
| Utils.TruncMonotone | agents/capacity.py:169 | truncation never reverses an order |
| Utils.MinMax | utils.py:16 | the result is in `[lo, hi]` when `lo <= hi`; a value already inside is returned unchanged; a value above is cut to `hi`, one below raised to `lo`; with `lo > hi` the result is `lo` |
| Utils.MinMaxIdempotent | utils.py:16 | clamping twice is clamping once |
| Utils.IntCeiling | utils.py:27 | for `val >= 0` the result is `floor(val + 0.9999)`, in `[val - 0.0001, val + 1)`; for `val < 0` it is at most 0 and in `(val - 1, val + 0.0001]` |
| Utils.IntCeilingMonotone | utils.py:27 | on non-negative values, `int_ceiling` never reverses an order |
| Utils.IntCeilingOfInt | utils.py:27 | `int_ceiling(n) = n` for every whole number `n` |
| Utils.IntCeilingOdd | utils.py:27 | `int_ceiling(-x) = -int_ceiling(x)`: negatives round away from zero |
| Utils.IntCeilingQuirks | utils.py:27 | `int_ceiling(0.00005) = 0` (not a ceiling) and `int_ceiling(-1.5) = -2` |
| Utils.Secs | utils.py:29-39 | when `amount * interval >= 0`, the result is non-negative and within half a unit of `amount * interval` (round half up); the default interval is 600 |
| Erlang.BStepFacts | calculations/erlang.py:22 | one step of the Erlang B recurrence from a value in `[0, 1]` that satisfies the carried-traffic bound gives a value in `[0, 1)` that is no larger and keeps `a * (1 - B(k)) < k` |
| Erlang.BStep | calculations/erlang.py:22 | one step `a * last / (k + a * last)` from a non-negative value is in `[0, 1)` |
| Erlang.ErlangBRec | calculations/erlang.py:20-23 | every `B(k)` is in `[0, 1]`; for `k >= 1`, `B(k) < 1` and `a * (1 - B(k)) < k` |
| Erlang.ErlangBSpec | calculations/erlang.py:17-24 | the value is in `[0, 1]`; it raises exactly when `0 <= servers < 1` and `intensity >= 0`; negative servers or intensity give 0; for `servers >= 1` it is below 1, and 0 with no traffic |
| Erlang.ErlangB | calculations/erlang.py:17-24 | the `for` loop over `last` and `b` computes `ErlangBSpec`, including the raise when the loop never runs |
| Erlang.ErlangBMonotone | calculations/erlang.py:21-23 | Erlang B never increases as servers are added |
| Erlang.ErlangBStepDown | calculations/erlang.py:21-23 | one more server never raises Erlang B |
| Erlang.ErlangBIntegerPart | calculations/erlang.py:19-21 | only the integer part of `servers` matters |
| Erlang.ErlangBLowerBound | calculations/erlang.py:21-23 | `k` servers carry fewer than `k` erlangs, so once `a * (1 - blocking) >= int(servers)` Erlang B is at least a target `blocking < 1`: the doubling loop's exit is reachable |
| Erlang.ExtStep | calculations/erlang.py:43-45 | a retry step stays in `[0, 1)`, is at least the plain Erlang B step, and equals it when nobody retries |
| Erlang.Attempts | calculations/erlang.py:44 | the attempts factor `1 / (1 - b * retries)` is at least 1, and exactly 1 with no retries |
| Erlang.ExtStepGrows | calculations/erlang.py:43-45 | the step `x / (k + x)` is in `[0, 1)` and grows with `x`, so the attempts factor never lowers blocking |
| Erlang.ErlangBExtRec | calculations/erlang.py:41-46 | every extended value is in `[0, 1]`, and below 1 from one server on |
| Erlang.ErlangBExtSpec | calculations/erlang.py:37-47 | the value is in `[0, 1]`; it raises exactly when `0 <= servers < 1` and `intensity >= 0`; negative servers or intensity give 0 |
| Erlang.ErlangBExt | calculations/erlang.py:37-47 | the `for` loop with the attempts factor computes `ErlangBExtSpec` |
| Erlang.ErlangBExtNoRetries | calculations/erlang.py:40-46 | with no retries, the extended recurrence is Erlang B |
| Erlang.ErlangBExtNonPositiveRetry | calculations/erlang.py:40-47 | `retry <= 0` is clamped to 0, and then `erlang_b_ext = erlang_b` |
| Erlang.ErlangBExtAtLeastErlangB | calculations/erlang.py:42-46 | retries never lower the blocking below Erlang B |
| Erlang.ExtStepDominates | calculations/erlang.py:43-45 | a retry step from a larger previous value is at least the plain step |
| Erlang.EngsetRaisesPersist | calculations/erlang.py:66-68 | once the Engset recurrence divides by zero, every longer run does too |
| Erlang.EngsetRecRaises | calculations/erlang.py:66-68 | the recurrence to `k` raises exactly when `k >= 1` and either the intensity is 0 or `events` is a whole number in `[1, k]` |
| Erlang.SingularIff | calculations/erlang.py:67 | `(events - j) * intensity = 0` exactly when the intensity is 0 or `events = j` |
| Erlang.EngsetRec | calculations/erlang.py:63-68 | with positive intensity and more sources than `k`, the recurrence to `k` never divides by zero and its value is at least 1 |
| Erlang.EngsetStepAtLeastOne | calculations/erlang.py:67 | with positive intensity and `events > k`, a step from a non-negative value is defined and at least 1 |
| Erlang.EngsetBSpec | calculations/erlang.py:60-69 | a value is in `[0, 1]`; negative servers or intensity give 0; with at least one server, positive intensity and more sources than servers the value is positive |
| Erlang.EngsetBRaises | calculations/erlang.py:60-69 | `engset_b` raises exactly on valid inputs with fewer than one server, zero intensity, or whole `events` in `[1, int(servers)]` |
| Erlang.EngsetB | calculations/erlang.py:60-69 | the `for` loop computes `EngsetBSpec` |
| Erlang.ErlangCDenominator | calculations/erlang.py:84 | for `servers >= 1`, the denominator `(a / s) * B + (1 - a / s)` is positive, at any utilisation |
| Erlang.DenominatorPositive | calculations/erlang.py:84 | that denominator is positive whenever `a * (1 - B) < s` |
| Erlang.ErlangC | calculations/erlang.py:81-85 | the value is in `[0, 1]`; it raises exactly when Erlang B does; negative inputs give 0; for `servers >= 1` no traffic gives 0 |
| Traffic.Pow10 | calculations/traffic.py:57-59 | the decimal steps are at least 1 |
| Traffic.RefineKeepsLastGood | calculations/traffic.py:28-37 | loop invariant of `looping_traffic`: the last good value `min_i` is the start or within the blocking target; with a non-negative step it never falls below the start; so does the result |
| Traffic.Refine | calculations/traffic.py:28-37 | the refinement raises only when Erlang B raises, that is for `0 <= trunks < 1` |
| Traffic.LoopingTrafficSpec | calculations/traffic.py:25-37 | the refined intensity is the start or within the blocking target; with a non-negative step it is at least the start; it raises only for `0 <= trunks < 1` |
| Traffic.LoopingTraffic | calculations/traffic.py:25-37 | the `while` loop computes the refinement; the result is the start or within the target, and at least the start for a non-negative step; it raises only for `0 <= trunks < 1` (always then, when it runs); at most 100 iterations; it ends on the cap or on a step below 1e-5 |
| Traffic.DoubleUntilBlocking | calculations/traffic.py:52-56 | the doubling loop ends on a candidate whose blocking is at least the target, and every earlier candidate is below it |
| Traffic.DoublingProgress | calculations/traffic.py:53-56 | the doubling candidate's whole part grows at each step, and is bounded by `int(servers) / (1 - blocking)`: the loop terminates for a target below 1 |
| Traffic.DoublingNeedsTargetBelowOne | calculations/traffic.py:54-56 | with a target of 1 or more the doubling never stops, since Erlang B stays below 1 |
| Traffic.DecimalStep | calculations/traffic.py:57-59 | `incr` ends as the smallest power of ten, at least 1, above `max_i / 100` |
| Traffic.Traffic | calculations/traffic.py:49-60 | 0 for `servers < 1` or a negative target; otherwise a non-negative intensity whose Erlang B is within the target |
| Queues.DeathRate | queues/queues.py:29 | calls per agent per interval are positive |
| Queues.TrafficRate | queues/queues.py:28-30 | `calls / (INTERVAL / aht) = calls * aht / INTERVAL`, non-negative for a non-negative volume |
| Queues.CappedUtilisation | queues/queues.py:56-58 | the capped utilisation is in `[0, 1)`: the plain ratio below full load, 0.99 from full load on |
| Queues.MeanQueue | queues/queues.py:60 | the mean queue `u * C / (1 - u)` is non-negative for `u` in `[0, 1)` |
| Queues.SpareCapacity | queues/queues.py:86-88 | `agents * death_rate * (1 - u)` is positive; below full load it is `death_rate * (agents - traffic)` |
| Queues.Queued | queues/queues.py:25-34 | invalid rates are rejected; otherwise it fails exactly when `agents < 1`; a value is in `[0, 1]` and is Erlang C of the traffic; no calls give 0 |
| Queues.QueueSize | queues/queues.py:50-63 | invalid rates are rejected; fewer than one agent fails; otherwise the size is the whole number within half a call of the mean queue `u * C / (1 - u)` (capped utilisation `u`, Erlang C `C`), rounded half up |
| Queues.QueueTime | queues/queues.py:79-91 | invalid rates are rejected; zero agents fail; otherwise a non-negative number of seconds: `secs(aht / (INTERVAL * (agents - traffic)))` below full load, `secs(1 / (agents * death_rate * 0.01))` from full load on |
| Queues.QueueTimeClosedForm | queues/queues.py:85-88 | below full load `1 / (agents * death_rate * (1 - u)) = aht / (INTERVAL * (agents - traffic))` |
| Queues.ServiceTime | queues/queues.py:109-128 | invalid rates or a negative target are rejected; fewer than one agent fails; otherwise it fails exactly when Erlang C is below `1 - sla` (or 0); a result is `int` of the wait `Queues.Wait`, so the `adjust` branch never fires |
| Queues.Wait | queues/queues.py:119-123 | the wait `qtime * (1 - (1 - sla) / C)` is non-negative, and below the cap it is `aht / (agents - traffic) * (1 - (1 - sla) / C)` |
| Queues.QueuedLevel | queues/queues.py:156 | `1 - C * exp((traffic - agents) * t / aht)` is 1 when `C` is 0, whatever `exp` gives |
| Queues.SlaMetric | queues/queues.py:146-159 | invalid rates or a negative service time are rejected; otherwise it fails exactly when `agents < 1`; a value is in `[0, 1]`; no calls give 1 |
| Search.Ladder | agents/capacity.py:42-51 | the result is in `[n, n + fuel]`; every count before it is rejected; unless the tries ran out, the rule accepts it |
| Search.Descend | agents/capacity.py:172-174 | the result is at most the start and not negative; a positive result fits the limit; every volume above it, up to the start, does not |
| Search.DescendMonotone | agents/capacity.py:172-174 | a descent from a higher start against a higher limit never ends lower |
| Capacity.AtMostOne | agents/capacity.py:31 | `min(sla, 1.0)`: at most 1 and at most `sla`, and one of the two |
| Capacity.StartEstimate | agents/capacity.py:35-36 | the starting count is at least 1 and at most `floor(traffic) + 1` |
| Capacity.Stabilise | agents/capacity.py:37-40 | the pre-loop ends on the start when the traffic is below it, otherwise on `floor(traffic) + 1` |
| Capacity.RaiseUntilStable | agents/capacity.py:37-40 | the `while` pre-loop computes `Stabilise`, with utilisation `traffic / n < 1` |
| Capacity.StabilisedStart | agents/capacity.py:35-40 | estimate and pre-loop together always give `floor(traffic) + 1` |
| Capacity.ServiceLevel | agents/capacity.py:45-48 | `1 - C(n) * exp((traffic - n) * t / aht)` raised to 0 is non-negative |
| Capacity.RequiredCount | agents/capacity.py:28-54 | the count `agents_required` settles on is at least 1 and above the traffic |
| Capacity.AgentsRequiredSpec | agents/capacity.py:28-54 | a negative target or volume, or `aht <= 0`, is rejected; with `S = floor(traffic) + 1`, the result is in `[S, 101 S]` and above the traffic; every count before it misses the target, capped at 1; unless the `100 S` tries ran out, the result meets it (level at least the target, or above `1 - MAX_ACCURACY`) |
| Capacity.RuleAboveTraffic | agents/capacity.py:42-50 | from the stable start on, the loop's stopping test `RequiredRule` is the service-level test `Meets` alone |
| Capacity.AgentsRequiredNoCalls | agents/capacity.py:45-50 | with no calls the answer is 1 agent |
| Capacity.ServiceLevelIsSlaMetric | agents/capacity.py:45-49 | the level the ladder tests (`Meets`: at least the target or above `1 - MAX_ACCURACY`) decides as `sla_metric` at the same count does: `sla_metric` succeeds there and meets the target exactly when the ladder's level does |
| Capacity.AgentsRequired | agents/capacity.py:28-54 | the pre-loop and the capped `for` ladder compute `AgentsRequiredSpec` |
| Capacity.Asa | agents/capacity.py:71-84 | `agents <= 0`, a negative volume or `aht <= 0` is rejected; otherwise it fails exactly when `agents < 1`; a result is the non-negative answer time of Erlang C |
| Capacity.AnswerSeconds | agents/capacity.py:77-82 | `secs(c / (agents * death_rate * (1 - u)))` is non-negative and below full load is `secs(c * aht / (INTERVAL * (agents - traffic)))` |
| Capacity.AnswerTimeClosedForm | agents/capacity.py:81 | the answer time is non-negative, and below full load it has that closed form |
| Capacity.LadderAnswerTime | agents/capacity.py:116 | the answer time at a ladder rung, with the pre-loop's utilisation, is non-negative |
| Capacity.AgentsAsaSpec | agents/capacity.py:101-122 | a negative target or volume, or `aht <= 0`, is rejected; with `S = floor(traffic) + 1` and the pre-loop's utilisation `traffic / S < 1`, the result is in `[S, 101 S]`; every count before it misses the target; unless the tries ran out, the result meets it |
| Capacity.AgentsAsa | agents/capacity.py:101-122 | the pre-loop and the capped `for` ladder compute `AgentsAsaSpec` |
| Capacity.NbAgentsSpec | agents/capacity.py:139-148 | invalid inputs are rejected; a result is the least count in `[1, 65535]` whose ASA is within the target; it fails exactly when no count in the range is |
| Capacity.NbAgents | agents/capacity.py:139-148 | the counting `for` loop computes `NbAgentsSpec` |
| Capacity.RequiredAt | agents/capacity.py:171 | for a non-negative volume and target, `agents_required` at that volume succeeds with this count |
| Capacity.CapacityStart | agents/capacity.py:169-170 | the starting volume `int_ceiling(INTERVAL / aht) * int(no_agents)` is non-negative |
| Capacity.CallCapacitySpec | agents/capacity.py:166-177 | invalid inputs are rejected; a result is a whole volume in `[0, start]`; if positive, `agents_required` there is at most `int(no_agents)`; every larger volume up to the start needs more |
| Capacity.CallCapacityMonotone | agents/capacity.py:169-175 | `call_capacity` never falls when agents are added |
| Capacity.CallCapacity | agents/capacity.py:166-177 | validation, then the descent; computes `CallCapacitySpec` |
| Capacity.LowerCalls | agents/capacity.py:171-175 | the `while` loop calling `agents_required` computes `Descend` from the start |
| Capacity.FractionalLevel | agents/capacity.py:215-220 | the level `fractional_agents` keeps is in `[0, 1]`: the service level, or 1 when that is above 1 |
| Capacity.FractionalLadder | agents/capacity.py:208-223 | the ladder never goes down, and a final level above the target comes with a previous level at or below it (so the interpolation is well defined) |
| Capacity.FractionalLadderSamples | agents/capacity.py:211-223 | above the traffic, a final level above the target is the level at the final count, and the one before it is the level one agent down, or the starting level when the ladder stopped on its first rung |
| Capacity.FractionalLadderAgents | agents/capacity.py:211-223 | when the levels stop the ladder exactly where a rule accepts, its final count is the count `Ladder` finds for that rule |
| Capacity.ClampKeepsDecision | agents/capacity.py:217-221 | cutting the level at 1 never changes a stopping decision against a target of at most 1, so `fractional_agents` stops where `agents_required` does |
| Capacity.Interpolate | agents/capacity.py:224-228 | the result is in `[N - 1, N]`, and below `N` exactly when the last level overshot the target |
| Capacity.Share | agents/capacity.py:226-228 | the share `(sla - last) / (level - last)` of the last agent is in `[0, 1)`, and 0 exactly when the previous level already reached the target |
| Capacity.FractionalCount | agents/capacity.py:198-229 | the fractional count lies within one agent below the count of `agents_required` |
| Capacity.FractionalSettled | agents/capacity.py:203-223 | on the final rung, a level above the capped target comes with a previous level at or below it |
| Capacity.FractionalSettledCount | agents/capacity.py:203-223 | the fractional ladder stops on the count `N` of `agents_required` |
| Capacity.FractionalSettledSamples | agents/capacity.py:208-223 | the final count is at least the first rung `floor(traffic) + 1`; after an overshoot the final level is the clamped service level at `N`, and on the first rung the level before it is still the initial 0.0 |
| Capacity.FractionalSettledPrevious | agents/capacity.py:210-223 | after an overshoot on a later rung, the level before it is the clamped service level at `N - 1` |
| Capacity.FractionalAgentsSpec | agents/capacity.py:195-231 | a negative target, volume or service time, or `aht <= 0`, is rejected; otherwise the result is in `[N - 1, N]`, with `N` the count of `agents_required`, and below `N` exactly when the final level overshot the capped target |
| Capacity.FractionalAgentsSamples | agents/capacity.py:224-229 | after an overshoot the result is `Share(sla, last, level) + N - 1`, the previous level being at or below the target; otherwise it is `N` |
| Capacity.FractionalAgents | agents/capacity.py:195-231 | pre-loop, ladder and interpolation compute `FractionalAgentsSpec` |
| Capacity.ClimbFractionalLadder | agents/capacity.py:208-223 | the `for` loop over `sl_queued` and `last_slq` computes the fractional ladder |
| Capacity.FractionalAt | agents/capacity.py:254 | for a non-negative volume and service time, `fractional_agents` at that volume succeeds with this value |
| Capacity.FractionalCapacityStart | agents/capacity.py:253 | the starting volume `int_ceiling((INTERVAL / aht) * no_agents)` is non-negative |
| Capacity.FractionalCallCapacitySpec | agents/capacity.py:249-260 | invalid inputs are rejected; a result is a whole volume in `[0, start]`; if positive, `fractional_agents` there is at most `no_agents`; every larger volume up to the start needs more |
| Capacity.FractionalCallCapacityMonotone | agents/capacity.py:252-258 | `fractional_call_capacity` never falls when agents are added |
| Capacity.FractionalCallCapacity | agents/capacity.py:249-260 | validation, then the descent; computes `FractionalCallCapacitySpec` |
| Capacity.LowerFractionalCalls | agents/capacity.py:252-258 | the `while` loop calling `fractional_agents` computes `Descend` from the start |
| Trunks.NumberTrunksSpec | trunks/trunks.py:27-39 | negative inputs are rejected; a result is the least count in `[int_ceiling(servers), 65535]` with blocking below 0.001, and at least 1; it fails exactly when the start is 0 (Erlang B raises) or no count in the range qualifies (an empty range included); with no traffic the start itself is returned |
| Trunks.NumberTrunks | trunks/trunks.py:27-39 | the counting loop over Erlang B computes `NumberTrunksSpec` |
| Trunks.OfferedLoad | trunks/trunks.py:68 | `calls / (INTERVAL / (aht + answer)) = calls * (aht + answer) / INTERVAL`, never below the traffic `calls * aht / INTERVAL` |
| Trunks.TrunksFor | trunks/trunks.py:66-72 | it succeeds exactly when `number_trunks` on the offered load does, and then returns the same count (the raise to 1 never applies); failures are calculation failures |
| Trunks.TrunksRequiredSpec | trunks/trunks.py:56-74 | negative agents or volume, or `aht <= 0`, are rejected; fewer than one agent fails; a result is in `[int_ceiling(agents), 65535]`, hence at least 1; every other failure is a calculation failure; a result is `number_trunks` on the offered load and blocks under 0.001 (`LowBlocking`) |
| Trunks.TrunksRequired | trunks/trunks.py:56-74 | Erlang C, the answer time, the offered load and `number_trunks` compute `TrunksRequiredSpec` |
| Trunks.TrunksNoCalls | trunks/trunks.py:60-72 | with no calls the trunks are the agents rounded up |

## Left out

- IEEE-754 floating point is not modelled: rounding, overflow to infinity and NaN. Over exact reals, the `traffic` doubling loop ends only for a target below 1. With floats it can escape through an infinite or NaN intensity.
- Traffic.Traffic: requires a blocking target below 1 whenever `servers >= 1`. Over the reals the doubling loop does not end otherwise (`Traffic.DoublingNeedsTargetBelowOne`).
- `math.exp` is the parameter `exp`. Properties that need values of the exponential are not stated.
- The configuration values are assumed to be 3600 and 1e-5, since the configuration module is not part of this model.
- Numeric reference values and the 1e-5 accuracy of the `traffic` round trip depend on float evaluation, so they are not stated.
- Exception messages and exception chaining are not modelled. Only the two failure kinds are.
- The `int` annotations on `aht` and `service_time` are not enforced by Python. They are modelled as reals.
- Queues.SlaMetric: states the range and the no-call case, not the value, which depends on `exp`. The capped utilisation it computes is never used; its only effect, a division by zero at 0 agents, coincides with Erlang C raising there.
- Capacity.Asa: states the closed form through `AnswerSeconds`, not as a single formula.
- Capacity.AgentsRequiredSpec: the bounds use `floor(traffic) + 1` for the start, which `Capacity.StabilisedStart` proves equal to the source's estimate after the pre-loop.
- No result is stated on monotonicity of Erlang C, `agents_required` or `number_trunks` in the traffic.
