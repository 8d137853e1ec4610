# RPL timers, modelled in Dafny

A model of the timing and control layer of an RPL node (the IPv6 routing
protocol for low-power and lossy networks, RFC 6550) as written in
`core/net/rplfuzzy/rpl-timers.c` of a Contiki variant with a "fuzzy
latency" extension. The layer is four callback-driven state machines:

- the **DIO trickle timer** of each DAG (section 4.2 of RFC 6206, as used
  for DIO transmission by section 8.3 of RFC 6550). Each interval is split
  at a random point of its second half. A DIO is multicast at that point
  unless the redundancy counter has reached the threshold. At the end of
  the interval the exponent doubles up to `dio_intmin + dio_intdoubl`.
- the **DAO timer** of each DAG. It is a debounce: a request while the
  timer is pending does nothing. On expiry it sends one DAO to the
  preferred parent (section 9.5 of RFC 6550).
- the one-second **maintenance timer**, with its multicast-DIS countdown.
- the **next-DIO predictor** for the preferred parent. It records the
  window in which the parent's next DIO is due and measures how late DIOs
  arrive. When the window passes without a DIO, it probes the parent with
  unicast DIS messages until one arrives.

## Layout

- `clock.dfy` (module `Clock`): 32-bit arithmetic and the build constants
  (`CLOCK_SECOND`, `RANDOM_RAND_MAX`, `DEFAULT_DAO_LATENCY`,
  `RPL_DIS_SEND`, `RPL_DIS_INTERVAL`, `RPL_DIS_START_DELAY`) as a
  `Config` value. Also timers as `Alarm` values (stopped, or armed for a
  duration), `new_interval`, and the DAO and probe delays.
- `trickle.dfy`, `repair.dfy`, `maintenance.dfy`, `predictor.dfy`: each
  callback as a pure transition on the fields it touches, with lemmas for
  what the code promises.
- `rpl_timers.dfy` (module `RplTimers`): the code's own shape. Class `Dag`
  holds the `rpl_dag_t` fields, class `Parent` the `rpl_parent_t`
  prediction fields, and class `Node` the module statics (`next_time`,
  `next_delay`, `dio_send_ok`, `next_dis`, `dis_sended`, the periodic and
  DIS timers). Every callback is a method that updates these fields in
  place. Each method is proved to leave exactly the state its pure
  transition gives. Calls to collaborators (`dio_output`, `dao_output`,
  `dis_output`, `dio_output_set_next`, `rpl_purge_routes`,
  `rpl_recalculate_ranks`, `update_metric_container`) are appended to a
  ghost `trace`.

The clock, the random source and the link-local address check are
parameters of the methods: `now`, `rand` (at most `RANDOM_RAND_MAX`) and
`linkLocal`. Two more facts come from outside as parameters: whether
`rpl_get_dag` finds a DAG (`dagExists`), and whether an armed DAO timer's
expiration time has passed (`expired`).

Arithmetic on `uint32_t` wraps modulo 2^32 explicitly (`Add32`, `Scale`,
`Shl32`, `new_interval`). `next_dis` wraps modulo 2^16. The `uint8_t`
residual of the `dis_sended` branch is taken modulo 256.

Behaviour of the code worth knowing:

- A DIO counts as late as soon as it arrives after `start + time`, the
  opening of the expected window. Its lateness is measured from there too
  (lines 329-330). With an advertised `(0, 1000, 500)`, a DIO 1600 ticks
  after the first one is late by 600 ticks, although it falls inside the
  window (`Predictor.WindowExample`).
- The DAO delay lies in `[L/2, L/2 + L)` with `L/2` rounded down
  (lines 244-245).
- A reset of the DIO timer clears only `next_time` (line 200). `next_delay` keeps its
  value until the new interval overwrites it.
- The "probe outstanding" flag `dis_sended` is never set (line 300 is a
  comment), so the resynchronising branch at lines 319-327 never runs
  (`Predictor.ResyncUnreachable`). `RplTimers.Node.Valid` holds this as a
  class invariant: the constructor establishes it and every method keeps it.
- `send_dis` does not check that its parent is still the preferred one.
  The shared `dis_timer` goes on probing a parent that has lost that role
  for as long as its `first_dio_received` stays clear (line 275,
  `RplTimers.Node.SendDis`). Once it is set, the timer is not set again and
  probing ends.
- `handle_dao_timer` reads `dio_send_ok` but never sets it.

## Model

| member | source | states |
|---|---|---|
| `Clock.NewInterval` | core/net/rplfuzzy/rpl-timers.c:89-95 | the send point and the remainder add up to the scaled interval `D = (d * CLOCK_SECOND mod 2^32) / 1000`, and the send point lies in `[D/2, D]` for every random value, 32-bit wrap included |
| `Clock.Share` | core/net/rplfuzzy/rpl-timers.c:93 | the random part added to the half interval never exceeds the half, even when the 32-bit product wraps |
| `Clock.NewIntervalExact` | core/net/rplfuzzy/rpl-timers.c:92-93 | while `half * rand` fits in 32 bits, the send point is `half + half * rand / RANDOM_RAND_MAX` |
| `Clock.NewIntervalWrapBound` | core/net/rplfuzzy/rpl-timers.c:93 | once the product wraps, the send point is at most `(2^32 - 1) / RANDOM_RAND_MAX` ticks after the half, so it no longer covers the whole second half |
| `Clock.NewIntervalWrapExample` | core/net/rplfuzzy/rpl-timers.c:89-95 | for a 2^21 ms interval at CLOCK_SECOND 1000 and the largest random value, the split is `(1114096, 983056)` instead of reaching the interval's end |
| `Clock.DaoDelay` | core/net/rplfuzzy/rpl-timers.c:244-245 | the DAO delay lies in `[L/2, L/2 + L)` for `L = DEFAULT_DAO_LATENCY` |
| `Clock.ProbeDelay` | core/net/rplfuzzy/rpl-timers.c:279 | the DIS probe delay lies in `[0, 100000]` ticks and reaches 100000 at RANDOM_RAND_MAX |
| `Clock.ProbeDelayOverflow` | core/net/rplfuzzy/rpl-timers.c:298 | with RANDOM_RAND_MAX 65535 the written product exceeds the largest 32-bit `int`, and the wrapped delay is 34462 where 100000 is meant |
| `Trickle.NewDioInterval` | core/net/rplfuzzy/rpl-timers.c:98-139 | starting an interval arms the DIO timer, enters the send phase with a zero counter and changes no other DAG field; the armed split is the stored look-ahead if there is one, else a fresh split of `D = 2^intCurrent` ms whose send point lies in `[D/2, D]`; the new look-ahead splits `2^(intCurrent+1)` ms with its send point in the second half |
| `Trickle.HandleDioTimer` | core/net/rplfuzzy/rpl-timers.c:141-180 | the DIO handler keeps `intMin <= intCurrent <= intMin + intDoubl`; `dio_send_ok` becomes set once a link-local address is seen; a DIO goes out only in the send phase below the redundancy threshold; a new interval starts exactly at the end of the second phase |
| `Trickle.Postponed` | core/net/rplfuzzy/rpl-timers.c:148-156 | without `dio_send_ok` and without a link-local address, the handler only re-arms for CLOCK_SECOND and leaves every other DAG field and the look-ahead unchanged |
| `Trickle.SendOkLatches` | core/net/rplfuzzy/rpl-timers.c:148-150 | once `dio_send_ok` is set it stays set |
| `Trickle.SendPhase` | core/net/rplfuzzy/rpl-timers.c:158-171 | in the send phase a DIO is multicast iff `dio_counter < dio_redundancy`; either way `dio_send` is cleared and the timer re-armed for `dio_next_delay`, with exponent and counter unchanged |
| `Trickle.EndPhase` | core/net/rplfuzzy/rpl-timers.c:172-179 | at the end of an interval the exponent becomes `min(intCurrent + 1, cap)`, the counter is reset and the send phase begins again |
| `Trickle.CapUsesLookAhead` | core/net/rplfuzzy/rpl-timers.c:103-111 | at the cap the exponent stays put, but the interval armed is the look-ahead of exponent `cap + 1` |
| `Trickle.CapSteady` | core/net/rplfuzzy/rpl-timers.c:103-111 | end, send and end again at the cap: the exponent stays at the cap and the second end arms the non-zero `2^(cap + 1)` look-ahead that the first end computed |
| `Trickle.LookAheadShared` | core/net/rplfuzzy/rpl-timers.c:86-87 | the look-ahead is one value for all DAGs: a DAG starting an interval right after another runs the interval computed from the other DAG's exponent |
| `Trickle.ResetDioTimer` | core/net/rplfuzzy/rpl-timers.c:190-208 | a reset keeps the exponent bound |
| `Trickle.ResetSkipped` | core/net/rplfuzzy/rpl-timers.c:194 | an unforced reset of a DAG at the minimum exponent changes nothing |
| `Trickle.ResetTakesEffect` | core/net/rplfuzzy/rpl-timers.c:194-203 | a forced reset, or one above the minimum, restarts at `dio_intmin` with a zero counter and splits `2^dio_intmin` ms afresh instead of using the stale look-ahead |
| `Trickle.Doubling` | core/net/rplfuzzy/rpl-timers.c:172-177 | from the send phase, `2n` expiries raise the exponent by `n` up to the cap and keep the bound |
| `Trickle.DoublingScenario` | core/net/rplfuzzy/rpl-timers.c:174-175 | with minimum 3 and 2 doublings, three intervals take the exponent 3 -> 4 -> 5 -> 5 |
| `Repair.ScheduleDao` | core/net/rplfuzzy/rpl-timers.c:234-251 | a pending DAO timer is never re-armed; otherwise it is armed for a delay in `[L/2, L/2 + L)` |
| `Repair.Debounce` | core/net/rplfuzzy/rpl-timers.c:241-242 | a second request right after the first leaves the timer as the first one set it |
| `Repair.HandleDaoTimer` | core/net/rplfuzzy/rpl-timers.c:210-232 | a DAO is sent iff the node may send and has a preferred parent; the timer is re-armed for CLOCK_SECOND exactly when the node may not send yet, and stopped otherwise |
| `Maintenance.StartCount` | core/net/rplfuzzy/rpl-timers.c:185 | a start leaves the countdown `RPL_DIS_START_DELAY` ticks short of RPL_DIS_INTERVAL |
| `Maintenance.PeriodicTick` | core/net/rplfuzzy/rpl-timers.c:74-81 | a tick sends a multicast DIS iff DIS sending is built in, the node has no DAG and the advanced 16-bit countdown reaches RPL_DIS_INTERVAL; the countdown then restarts from 0 |
| `Maintenance.QuietTicks` | core/net/rplfuzzy/rpl-timers.c:76-77 | ticks that keep the countdown below RPL_DIS_INTERVAL send no DIS |
| `Maintenance.ProbeAtInterval` | core/net/rplfuzzy/rpl-timers.c:76-80 | the run of ticks that brings the countdown to RPL_DIS_INTERVAL sends exactly one DIS and leaves the countdown at 0 |
| `Maintenance.ProbeSchedule` | core/net/rplfuzzy/rpl-timers.c:182-187 | after a start the first DIS goes out on tick RPL_DIS_START_DELAY and not before, and then one every RPL_DIS_INTERVAL ticks |
| `Predictor.ScheduleNextDioReception` | core/net/rplfuzzy/rpl-timers.c:255-267 | for the preferred parent the window opens `delay + next_time` after `now` and lasts `next_delay`; the wait timer fires exactly at its end; any other parent is left alone |
| `Predictor.HandleNextDio` | core/net/rplfuzzy/rpl-timers.c:284-302 | the wait timer has fired and is left stopped; for the preferred parent `first_dio_received` is cleared as well; no other prediction field changes |
| `Predictor.DioReceived` | core/net/rplfuzzy/rpl-timers.c:304-347 | after a DIO from the preferred parent the prediction is valid again and `dis_sended` is clear; a latency sample is taken only for a valid prediction of the preferred parent |
| `Predictor.StaleParentIgnored` | core/net/rplfuzzy/rpl-timers.c:255-256 | every predictor entry point leaves a parent that is not `p->dag->preferred_parent` unchanged, except that its fired wait timer is left stopped |
| `Predictor.FirstDio` | core/net/rplfuzzy/rpl-timers.c:306-315 | a first DIO records `start = now + delay`, `time = next_time`, `delay = next_delay + 400` and sets `first_dio_received` |
| `Predictor.LateDio` | core/net/rplfuzzy/rpl-timers.c:329-334 | a DIO after `start + time` gives `latency_metric = now - (start + time) > 0`, calls the metric update and predicts afresh |
| `Predictor.OnTimeDio` | core/net/rplfuzzy/rpl-timers.c:335-344 | an on-time DIO takes no sample and re-predicts only when `next_time + next_delay` equals the stored sum; otherwise nothing changes |
| `Predictor.ResyncUnreachable` | core/net/rplfuzzy/rpl-timers.c:319-327 | no DIO sets `dis_sended`, so from its initial 0 the resynchronising branch is dead |
| `Predictor.DioEndsProbing` | core/net/rplfuzzy/rpl-timers.c:307-313 | after the wait timer has expired, the next DIO from the preferred parent sets `first_dio_received` again, which stops the DIS loop |
| `Predictor.WindowExample` | core/net/rplfuzzy/rpl-timers.c:329-343 | for an advertised `(0, 1000, 500)` the window is `[t + 1000, t + 1900]`; a DIO at `t + 1600` is 600 ticks late; a DIO at `t + 900` is on time and re-predicts |
| `RplTimers.Node.constructor` | core/net/rplfuzzy/rpl-timers.c:61-64 | the module statics start at zero with the timers stopped, which establishes the invariant `Valid()` (`dis_sended` clear) that every method of the node keeps |
| `RplTimers.Node.ResetPeriodicTimer` | core/net/rplfuzzy/rpl-timers.c:182-187 | sets the DIS countdown to its start value and arms the heartbeat for CLOCK_SECOND |
| `RplTimers.Node.HandlePeriodicTimer` | core/net/rplfuzzy/rpl-timers.c:68-83 | purges routes, recalculates ranks, advances the countdown as `PeriodicTick` says and sends the DIS it calls for; the heartbeat keeps its period |
| `RplTimers.Node.NewDioInterval` | core/net/rplfuzzy/rpl-timers.c:98-139 | the in-place update leaves the DAG and the look-ahead as `Trickle.NewDioInterval` gives them and publishes the new look-ahead |
| `RplTimers.Node.HandleDioTimer` | core/net/rplfuzzy/rpl-timers.c:141-180 | the in-place update matches `Trickle.HandleDioTimer`, keeps the exponent bound, and logs a DIO exactly when one is sent |
| `RplTimers.Node.ResetDioTimer` | core/net/rplfuzzy/rpl-timers.c:190-208 | the in-place update matches `Trickle.ResetDioTimer` and keeps the exponent bound |
| `RplTimers.Node.HandleDaoTimer` | core/net/rplfuzzy/rpl-timers.c:210-232 | the DAO timer ends as `Repair.HandleDaoTimer` says; a DAO with the default lifetime goes to the preferred parent exactly when it says to send |
| `RplTimers.Node.ScheduleDao` | core/net/rplfuzzy/rpl-timers.c:234-251 | the DAO timer ends as `Repair.ScheduleDao` says |
| `RplTimers.Parent.ScheduleNextDioReception` | core/net/rplfuzzy/rpl-timers.c:255-267 | the parent's prediction fields end as `Predictor.ScheduleNextDioReception` says |
| `RplTimers.Node.HandleNextDio` | core/net/rplfuzzy/rpl-timers.c:284-302 | the parent's prediction ends as `Predictor.HandleNextDio` says, its fired wait timer stopped; for the preferred parent the shared DIS timer is armed toward it, otherwise that timer is untouched |
| `RplTimers.Node.SendDis` | core/net/rplfuzzy/rpl-timers.c:273-281 | sends a unicast DIS and re-arms for at most 100000 ticks exactly while `first_dio_received` is clear, without checking that the parent is still preferred; once it is set, sends nothing and leaves the fired DIS timer stopped |
| `RplTimers.Node.DioReceived` | core/net/rplfuzzy/rpl-timers.c:304-347 | the parent's prediction and `dis_sended` end as `Predictor.DioReceived` says, for either value of `dis_sended`; a valid node stays valid; the metric update is logged exactly when a latency sample is taken |

## Findings

| source | as written | input that shows it | evidently intended | confidence | as-written member | corrected member |
|---|---|---|---|---|---|---|
| core/net/rplfuzzy/rpl-timers.c:279 | `(100000 * random_rand()) / RANDOM_RAND_MAX` multiplies in 32-bit signed arithmetic, which overflows for random values of 21475 and above (the same expression is at line 298) | RANDOM_RAND_MAX 65535 and `random_rand()` returning 65535: the product 6553500000 exceeds 2^31 - 1; wrapped, the delay is 34462 ticks | a probe delay spread over `[0, 100000]` ticks | medium, not executed: depends on the platform's 32-bit `int`/`long` and on RANDOM_RAND_MAX, which is defined outside this file | `Clock.ProbeDelayAsWritten` (shown by `Clock.ProbeDelayOverflow`) | `Clock.ProbeDelay` |

The signed overflow is undefined behaviour in C, so no single reading of
the written code exists. The model's probe timers use the corrected delay.
The 32-bit product in `new_interval` (line 93) wraps too, but that one is
unsigned and well defined, so the model keeps it as written and states its
effect (`Clock.NewIntervalWrapBound`, `Clock.NewIntervalWrapExample`).

## Left out

- The timer service, `clock_time()` and `random_rand()`. They become
  parameters. Which callback runs when is not modelled: each method is one
  run of a callback.
- The `ctimer` duration type `clock_time_t`. Armed durations are kept as the
  `uint32_t` (or unbounded) values the code computes, not truncated to a
  narrower type.
- `DEFAULT_DAO_LATENCY / 2 + random_rand() % DEFAULT_DAO_LATENCY` is
  computed without wrap.
- Transmissions and collaborators appear only as trace events. This covers
  `dio_output`, `dis_output`, `dao_output`, `dio_output_set_next`,
  `rpl_purge_routes`, `rpl_recalculate_ranks` and
  `update_metric_container`. The link-local check and `rpl_get_dag` become
  boolean parameters.
- `PRINTF`/`ANNOTATE` logging and the `RPL_CONF_STATS` counters. They are
  telemetry only.
- `rpl_dio_received` may read `clock_time()` twice: once itself and once
  inside `rpl_schedule_next_dio_reception`. The model uses one `now` for
  both.
- `Shl32`: models `1UL << e` stored into a `uint32_t` as `2^e mod 2^32`,
  which is what an unsigned long of at least 32 bits gives. It says nothing
  about the undefined shifts past the width of `unsigned long`.
- Nothing in this file increments `dio_counter`: the DIO receiver does,
  outside this file. The counter is whatever the DAG holds.
- `Trickle.WellFormed`: asks for `dio_intmin + dio_intdoubl < 256`, which
  the C does not check. With a larger cap the `uint8_t` `dio_intcurrent++`
  at line 175 would wrap from 255 to 0, but such a run has already shifted
  `1UL` by more than its width at lines 105 and 136, which is undefined;
  DAGs with such a cap are not modelled.
- `rpl_dag_t` and `rpl_parent_t` are defined in `rpl-private.h`, which is
  not part of this model. The prediction fields are taken to be `uint32_t`,
  like the values stored in them.
- `RplTimers.Node.SendDis` and `RplTimers.Node.HandleNextDio`: the probe
  delay is the corrected `Clock.ProbeDelay`, not the overflowing expression
  as written (see Findings).
