/** The DIO trickle timer of a DAG (section 4.2 of RFC 6206 as used by
    section 8.3 of RFC 6550), as pure transitions on the DAG's DIO fields
    and on the look-ahead that the timer module keeps for all DAGs. */
module Trickle {
  import opened Clock

  /** The DIO fields of `rpl_dag_t`: `dio_intcurrent`, `dio_intmin`,
      `dio_intdoubl`, `dio_redundancy`, `dio_counter`, `dio_send`,
      `dio_next_delay`, and the state of `dio_timer`. */
  datatype DioState = DioState(
    intCurrent: nat,
    intMin: nat,
    intDoubl: nat,
    redundancy: nat,
    counter: nat,
    dioSend: bool,
    nextDelay: uint32,
    timer: Alarm)

  /** The largest interval exponent: `dio_intmin + dio_intdoubl`. */
  function Cap(s: DioState): nat {
    s.intMin + s.intDoubl
  }

  /** The exponent stays between the minimum and the cap, and the cap fits
      the `uint8_t` field that holds the exponent. */
  predicate WellFormed(s: DioState) {
    s.intMin <= s.intCurrent <= Cap(s) && Cap(s) < 256
  }

  /** The module-level `next_time` and `next_delay`: the split of the interval
      after the current one, computed one interval ahead and shared by all
      DAGs. A `time` of 0 means "not computed". */
  datatype LookAhead = LookAhead(time: uint32, delay: uint32)

  /** The DIO state and the look-ahead after an interval starts. */
  datatype Interval = Interval(dio: DioState, ahead: LookAhead)

  /** `new_dio_interval`: arm the DIO timer for the send point of the new
      interval, which is the stored look-ahead when there is one and a fresh
      split of `2^intCurrent` ms otherwise; enter the send phase with a zero
      redundancy counter; then compute the look-ahead for exponent
      `intCurrent + 1`. Nothing else in the DAG changes. */
  function NewDioInterval(cfg: Config, s: DioState, la: LookAhead, randNow: nat, randAhead: nat): (r: Interval)
    requires ValidConfig(cfg) && randNow <= cfg.randMax && randAhead <= cfg.randMax
    ensures r.dio.timer.Armed?
    ensures r.dio == s.(dioSend := true, counter := 0, nextDelay := r.dio.nextDelay, timer := r.dio.timer)
    ensures la.time == 0 ==> r.dio.timer.duration + r.dio.nextDelay == Scale(cfg, Shl32(s.intCurrent))
    ensures la.time == 0 ==> Scale(cfg, Shl32(s.intCurrent)) / 2 <= r.dio.timer.duration
    ensures la.time != 0 ==> r.dio.timer.duration == la.time && r.dio.nextDelay == la.delay
    ensures r.ahead.time + r.ahead.delay == Scale(cfg, Shl32(s.intCurrent + 1))
    ensures Scale(cfg, Shl32(s.intCurrent + 1)) / 2 <= r.ahead.time
  {
    var now := if la.time == 0 then NewInterval(cfg, Shl32(s.intCurrent), randNow) else Split(la.time, la.delay);
    var ahead := NewInterval(cfg, Shl32(s.intCurrent + 1), randAhead);
    Interval(s.(dioSend := true, counter := 0, nextDelay := now.next, timer := Armed(now.time)),
             LookAhead(ahead.time, ahead.next))
  }

  /** What one expiry of the DIO timer leaves behind: the DIO state, the
      look-ahead, `dio_send_ok`, whether a DIO was multicast, and whether a
      new interval started (and so `dio_output_set_next` was called). */
  datatype Fired = Fired(dio: DioState, ahead: LookAhead, sendOk: bool, sent: bool, started: bool)

  /** `handle_dio_timer`. Without a link-local address it only re-arms for a
      second; otherwise it either ends the send phase (sending unless the
      redundancy counter reached the threshold) or ends the interval
      (doubling the exponent below the cap) and starts the next one. */
  function HandleDioTimer(cfg: Config, s: DioState, la: LookAhead, sendOk: bool, linkLocal: bool,
                          randNow: nat, randAhead: nat): (r: Fired)
    requires ValidConfig(cfg) && randNow <= cfg.randMax && randAhead <= cfg.randMax
    requires WellFormed(s)
    ensures WellFormed(r.dio) && Cap(r.dio) == Cap(s)
    ensures r.sendOk == (sendOk || linkLocal)
    ensures r.sent ==> r.sendOk && s.dioSend && s.counter < s.redundancy
    ensures r.started <==> r.sendOk && !s.dioSend
  {
    if !sendOk && !linkLocal then
      Fired(s.(timer := Armed(cfg.clockSecond)), la, false, false, false)
    else if s.dioSend then
      Fired(s.(dioSend := false, timer := Armed(s.nextDelay)), la, true, s.counter < s.redundancy, false)
    else
      var doubled := s.(intCurrent := if s.intCurrent < Cap(s) then s.intCurrent + 1 else s.intCurrent);
      var next := NewDioInterval(cfg, doubled, la, randNow, randAhead);
      Fired(next.dio, next.ahead, true, false, true)
  }

  /** Without a link-local address the handler changes no DIO field except
      the timer, which it re-arms for one second; the look-ahead stays. */
  lemma Postponed(cfg: Config, s: DioState, la: LookAhead, randNow: nat, randAhead: nat)
    requires ValidConfig(cfg) && randNow <= cfg.randMax && randAhead <= cfg.randMax
    requires WellFormed(s)
    ensures var r := HandleDioTimer(cfg, s, la, false, false, randNow, randAhead);
            r.dio == s.(timer := Armed(cfg.clockSecond)) && r.ahead == la && !r.sendOk && !r.sent
  {
  }

  /** Once a link-local address has been seen, `dio_send_ok` stays set. */
  lemma SendOkLatches(cfg: Config, s: DioState, la: LookAhead, linkLocal: bool, randNow: nat, randAhead: nat)
    requires ValidConfig(cfg) && randNow <= cfg.randMax && randAhead <= cfg.randMax
    requires WellFormed(s)
    ensures HandleDioTimer(cfg, s, la, true, linkLocal, randNow, randAhead).sendOk
  {
  }

  /** The send phase multicasts a DIO exactly when the redundancy counter is
      below the threshold; either way it leaves the send phase and arms the
      timer for the rest of the interval, with exponent and counter as they
      were. */
  lemma SendPhase(cfg: Config, s: DioState, la: LookAhead, sendOk: bool, linkLocal: bool,
                  randNow: nat, randAhead: nat)
    requires ValidConfig(cfg) && randNow <= cfg.randMax && randAhead <= cfg.randMax
    requires WellFormed(s) && s.dioSend && (sendOk || linkLocal)
    ensures var r := HandleDioTimer(cfg, s, la, sendOk, linkLocal, randNow, randAhead);
            (r.sent <==> s.counter < s.redundancy) &&
            r.dio == s.(dioSend := false, timer := Armed(s.nextDelay)) && r.ahead == la
  {
  }

  /** The end of an interval raises the exponent by one up to the cap,
      resets the redundancy counter and re-enters the send phase. */
  lemma EndPhase(cfg: Config, s: DioState, la: LookAhead, sendOk: bool, linkLocal: bool,
                 randNow: nat, randAhead: nat)
    requires ValidConfig(cfg) && randNow <= cfg.randMax && randAhead <= cfg.randMax
    requires WellFormed(s) && !s.dioSend && (sendOk || linkLocal)
    ensures var r := HandleDioTimer(cfg, s, la, sendOk, linkLocal, randNow, randAhead);
            r.dio.intCurrent == Min(s.intCurrent + 1, Cap(s)) &&
            r.dio.counter == 0 && r.dio.dioSend && !r.sent
  {
  }

  function Min(a: nat, b: nat): nat {
    if a < b then a else b
  }

  /** The armed interval comes from the look-ahead, computed for one exponent
      more than the one in force when it was computed: at the cap the timer
      keeps running intervals of `2^(cap + 1)` ms while the exponent stays at
      the cap. */
  lemma CapUsesLookAhead(cfg: Config, s: DioState, la: LookAhead, randNow: nat, randAhead: nat)
    requires ValidConfig(cfg) && randNow <= cfg.randMax && randAhead <= cfg.randMax
    requires WellFormed(s) && s.intCurrent == Cap(s) && !s.dioSend
    requires la.time != 0 && la.time + la.delay == Scale(cfg, Shl32(Cap(s) + 1))
    ensures var r := HandleDioTimer(cfg, s, la, true, true, randNow, randAhead);
            r.dio.intCurrent == Cap(s) &&
            r.dio.timer.duration + r.dio.nextDelay == Scale(cfg, Shl32(Cap(s) + 1)) &&
            r.ahead.time + r.ahead.delay == Scale(cfg, Shl32(Cap(s) + 1))
  {
  }

  /** At the cap the timer settles: the end of an interval, the send phase
      that follows and the next end leave the exponent at the cap, and the
      interval armed at the second end is the `2^(cap + 1)` look-ahead that
      the first end computed. The look-ahead needs no assumption here: the
      first end leaves a non-zero one whenever half the scaled interval is
      positive. */
  lemma CapSteady(cfg: Config, s: DioState, la: LookAhead, r1: nat, r2: nat, r3: nat, r4: nat, r5: nat, r6: nat)
    requires ValidConfig(cfg) && r1 <= cfg.randMax && r2 <= cfg.randMax && r3 <= cfg.randMax
    requires r4 <= cfg.randMax && r5 <= cfg.randMax && r6 <= cfg.randMax
    requires WellFormed(s) && s.intCurrent == Cap(s) && !s.dioSend
    requires Scale(cfg, Shl32(Cap(s) + 1)) / 2 > 0
    ensures var f1 := HandleDioTimer(cfg, s, la, true, true, r1, r2);
            var f2 := HandleDioTimer(cfg, f1.dio, f1.ahead, true, true, r3, r4);
            var f3 := HandleDioTimer(cfg, f2.dio, f2.ahead, true, true, r5, r6);
            f1.started && f2.dio.intCurrent == Cap(s) && f3.started && f3.dio.intCurrent == Cap(s) &&
            f3.dio.timer.duration == f1.ahead.time &&
            f3.dio.timer.duration + f3.dio.nextDelay == Scale(cfg, Shl32(Cap(s) + 1))
  {
    var f1 := HandleDioTimer(cfg, s, la, true, true, r1, r2);
    EndPhase(cfg, s, la, true, true, r1, r2);
    SendPhase(cfg, f1.dio, f1.ahead, true, true, r3, r4);
    var f2 := HandleDioTimer(cfg, f1.dio, f1.ahead, true, true, r3, r4);
    CapUsesLookAhead(cfg, f2.dio, f2.ahead, r5, r6);
  }

  /** The look-ahead is one value for all DAGs: a DAG starting an interval
      after another one runs the interval computed from the other DAG's
      exponent. */
  lemma LookAheadShared(cfg: Config, a: DioState, b: DioState, la: LookAhead,
                        r1: nat, r2: nat, r3: nat, r4: nat)
    requires ValidConfig(cfg) && r1 <= cfg.randMax && r2 <= cfg.randMax
    requires r3 <= cfg.randMax && r4 <= cfg.randMax
    requires Scale(cfg, Shl32(a.intCurrent + 1)) / 2 > 0
    ensures var first := NewDioInterval(cfg, a, la, r1, r2);
            var second := NewDioInterval(cfg, b, first.ahead, r3, r4);
            second.dio.timer.duration + second.dio.nextDelay == Scale(cfg, Shl32(a.intCurrent + 1))
  {
  }

  /** `rpl_reset_dio_timer`: unless forced, a DAG already at the minimum
      exponent is left alone; otherwise the exponent returns to the minimum,
      the counter and the look-ahead time are cleared and a new interval
      starts. */
  function ResetDioTimer(cfg: Config, s: DioState, la: LookAhead, force: bool,
                         randNow: nat, randAhead: nat): (r: Interval)
    requires ValidConfig(cfg) && randNow <= cfg.randMax && randAhead <= cfg.randMax
    requires WellFormed(s)
    ensures WellFormed(r.dio) && Cap(r.dio) == Cap(s)
  {
    if force || s.intCurrent > s.intMin then
      NewDioInterval(cfg, s.(counter := 0, intCurrent := s.intMin), la.(time := 0), randNow, randAhead)
    else
      Interval(s, la)
  }

  /** An unforced reset of a DAG at the minimum exponent changes nothing. */
  lemma ResetSkipped(cfg: Config, s: DioState, la: LookAhead, randNow: nat, randAhead: nat)
    requires ValidConfig(cfg) && randNow <= cfg.randMax && randAhead <= cfg.randMax
    requires WellFormed(s) && s.intCurrent <= s.intMin
    ensures ResetDioTimer(cfg, s, la, false, randNow, randAhead) == Interval(s, la)
  {
  }

  /** A reset that takes effect restarts at the minimum exponent with a zero
      counter, and the first interval is split fresh from `2^intMin` ms
      rather than taken from the stale look-ahead. */
  lemma ResetTakesEffect(cfg: Config, s: DioState, la: LookAhead, force: bool, randNow: nat, randAhead: nat)
    requires ValidConfig(cfg) && randNow <= cfg.randMax && randAhead <= cfg.randMax
    requires WellFormed(s) && (force || s.intCurrent > s.intMin)
    ensures var r := ResetDioTimer(cfg, s, la, force, randNow, randAhead);
            r.dio.intCurrent == s.intMin && r.dio.counter == 0 && r.dio.dioSend &&
            r.dio.timer.duration + r.dio.nextDelay == Scale(cfg, Shl32(s.intMin)) &&
            r.ahead.time + r.ahead.delay == Scale(cfg, Shl32(s.intMin + 1))
  {
  }

  /** Every random value is one `random_rand()` could return. */
  predicate RandsOk(cfg: Config, rands: seq<(nat, nat)>) {
    forall i :: 0 <= i < |rands| ==> rands[i].0 <= cfg.randMax && rands[i].1 <= cfg.randMax
  }

  /** Successive expiries of the DIO timer of a node that has its link-local
      address, one pair of random values per expiry. */
  function Run(cfg: Config, s: DioState, la: LookAhead, rands: seq<(nat, nat)>): Interval
    requires ValidConfig(cfg) && WellFormed(s) && RandsOk(cfg, rands)
    decreases |rands|
  {
    if rands == [] then Interval(s, la)
    else
      var f := HandleDioTimer(cfg, s, la, true, true, rands[0].0, rands[0].1);
      Run(cfg, f.dio, f.ahead, rands[1..])
  }

  /** Starting in the send phase, `2n` expiries make `n` whole intervals: the
      exponent has grown by `n`, up to the cap, and the DAG is back in the
      send phase with the bound still holding. */
  lemma {:induction false} Doubling(cfg: Config, s: DioState, la: LookAhead, rands: seq<(nat, nat)>)
    requires ValidConfig(cfg) && WellFormed(s) && RandsOk(cfg, rands)
    requires s.dioSend && |rands| % 2 == 0
    ensures var r := Run(cfg, s, la, rands);
            WellFormed(r.dio) && Cap(r.dio) == Cap(s) && r.dio.dioSend &&
            r.dio.intCurrent == Min(s.intCurrent + |rands| / 2, Cap(s))
    decreases |rands|
  {
    if rands != [] {
      var f1 := HandleDioTimer(cfg, s, la, true, true, rands[0].0, rands[0].1);
      var f2 := HandleDioTimer(cfg, f1.dio, f1.ahead, true, true, rands[1].0, rands[1].1);
      SendPhase(cfg, s, la, true, true, rands[0].0, rands[0].1);
      EndPhase(cfg, f1.dio, f1.ahead, true, true, rands[1].0, rands[1].1);
      assert rands[1..][1..] == rands[2..];
      assert RandsOk(cfg, rands[2..]) by {
        forall i | 0 <= i < |rands[2..]|
          ensures rands[2..][i].0 <= cfg.randMax && rands[2..][i].1 <= cfg.randMax
        {
          assert rands[2..][i] == rands[i + 2];
        }
      }
      assert Run(cfg, s, la, rands) == Run(cfg, f2.dio, f2.ahead, rands[2..]);
      Doubling(cfg, f2.dio, f2.ahead, rands[2..]);
    }
  }

  /** Minimum exponent 3 with 2 doublings: three whole intervals take the
      exponent 3 -> 4 -> 5 -> 5. */
  lemma DoublingScenario(cfg: Config, s: DioState, la: LookAhead, rands: seq<(nat, nat)>)
    requires ValidConfig(cfg) && RandsOk(cfg, rands) && |rands| == 6
    requires s.intMin == 3 && s.intDoubl == 2 && s.intCurrent == 3 && s.dioSend
    ensures Run(cfg, s, la, rands[..2]).dio.intCurrent == 4
    ensures Run(cfg, s, la, rands[..4]).dio.intCurrent == 5
    ensures Run(cfg, s, la, rands).dio.intCurrent == 5
  {
    assert RandsOk(cfg, rands[..2]) && RandsOk(cfg, rands[..4]) by {
      forall i | 0 <= i < 4 ensures rands[..4][i] == rands[i] && (i < 2 ==> rands[..2][i] == rands[i]) {}
    }
    Doubling(cfg, s, la, rands[..2]);
    Doubling(cfg, s, la, rands[..4]);
    Doubling(cfg, s, la, rands);
  }
}
