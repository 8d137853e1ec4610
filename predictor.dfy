/** The "fuzzy latency" predictor: for the preferred parent, the window in
    which its next DIO is expected, the lateness of DIOs that miss it, and
    the wait timer whose expiry starts unicast DIS probing. */
module Predictor {
  import opened Clock

  /** Added to the parent's advertised `next_delay` before it is used. */
  const Skew: nat := 400

  /** The prediction fields of `rpl_parent_t`: `next_dio_start_interval`,
      `next_dio_time`, `next_dio_delay`, `first_dio_received`,
      `latency_metric`, and the state of `latency_timer`. The next DIO is
      expected from `start + time` to `start + time + delay`. */
  datatype Prediction = Prediction(
    start: uint32,
    time: uint32,
    delay: uint32,
    first: bool,
    latency: uint32,
    timer: Alarm)

  /** The first tick at which the next DIO is due. */
  function Due(pr: Prediction): uint32 {
    Add32(pr.start, pr.time)
  }

  /** `rpl_schedule_next_dio_reception`: for the preferred parent, the next
      interval of the parent starts `delay` ticks from `now`; its DIO is due
      `nextTime` later and may come `nextDelay` after that. The wait timer
      is armed to fire exactly at the end of that window. For any other
      parent nothing changes. */
  function ScheduleNextDioReception(pr: Prediction, preferred: bool, now: uint32,
                                    delay: uint32, nextTime: uint32, nextDelay: uint32): (r: Prediction)
    ensures !preferred ==> r == pr
    ensures preferred ==>
              r.start == Add32(now, delay) && r.time == nextTime && r.delay == nextDelay &&
              r.timer.Armed? && Add32(now, r.timer.duration) == Add32(Due(r), r.delay) &&
              r.first == pr.first && r.latency == pr.latency
  {
    Add32Assoc(now, Add32(delay, nextTime), nextDelay);
    Add32Assoc(now, delay, nextTime);
    if preferred then
      pr.(delay := nextDelay, time := nextTime, start := Add32(now, delay),
          timer := Armed(Add32(Add32(delay, nextTime), nextDelay)))
    else pr
  }

  /** `handle_next_dio`, the callback of the wait timer: the timer has fired
      and is not set again. For the preferred parent the prediction is
      invalidated as well (and the caller starts DIS probing). */
  function HandleNextDio(pr: Prediction, preferred: bool): (r: Prediction)
    ensures r.timer == Stopped
    ensures r.first <==> pr.first && !preferred
    ensures r.(first := pr.first, timer := pr.timer) == pr
  {
    if preferred then pr.(first := false, timer := Stopped) else pr.(timer := Stopped)
  }

  /** The prediction after a DIO, the `dis_sended` flag, and whether a
      latency sample was taken (and `update_metric_container` called). */
  datatype Reception = Reception(pred: Prediction, disSended: bool, metric: bool)

  /** The branch of `rpl_dio_received` guarded by `dis_sended`: re-arm the
      wait timer from a residual truncated to `uint8_t` and take the newly
      advertised time and delay, keeping the start. */
  function Resynchronised(pr: Prediction, now: uint32, nextTime: uint32, nextDelay: uint32): Prediction {
    var residual := (pr.start + pr.time + pr.delay + nextTime - now) % 256;
    pr.(timer := Armed(Add32(residual, nextDelay)), time := nextTime, delay := nextDelay)
  }

  /** `rpl_dio_received` for a DIO advertising `(delay, nextTime, nextDelay)`
      that arrives at `now`. */
  function DioReceived(pr: Prediction, preferred: bool, disSended: bool, now: uint32,
                       delay: uint32, nextTime: uint32, nextDelay: uint32): (r: Reception)
    ensures preferred ==> r.pred.first && !r.disSended
    ensures r.metric ==> preferred && pr.first
  {
    if !preferred then Reception(pr, disSended, false)
    else
      var padded := Add32(nextDelay, Skew);
      if !pr.first then
        Reception(ScheduleNextDioReception(pr, true, now, delay, nextTime, padded).(first := true), false, false)
      else
        var p1 := if disSended then Resynchronised(pr, now, nextTime, padded) else pr;
        if now > Due(p1) then
          var sampled := p1.(latency := now - Due(p1));
          Reception(ScheduleNextDioReception(sampled, true, now, delay, nextTime, padded), false, true)
        else if Add32(nextTime, padded) == Add32(p1.time, p1.delay) then
          Reception(ScheduleNextDioReception(p1, true, now, delay, nextTime, padded), false, false)
        else
          Reception(p1, false, false)
  }

  /** Every entry point ignores a parent that is not the preferred one; its
      wait timer, having fired, is merely left stopped. */
  lemma StaleParentIgnored(pr: Prediction, disSended: bool, now: uint32,
                           delay: uint32, nextTime: uint32, nextDelay: uint32)
    ensures ScheduleNextDioReception(pr, false, now, delay, nextTime, nextDelay) == pr
    ensures HandleNextDio(pr, false) == pr.(timer := Stopped)
    ensures DioReceived(pr, false, disSended, now, delay, nextTime, nextDelay) == Reception(pr, disSended, false)
  {
  }

  /** The first DIO of the preferred parent records the window its look-ahead
      describes, with the skew added to the delay, and starts the wait. */
  lemma FirstDio(pr: Prediction, disSended: bool, now: uint32, delay: uint32, nextTime: uint32, nextDelay: uint32)
    requires !pr.first
    ensures var r := DioReceived(pr, true, disSended, now, delay, nextTime, nextDelay);
            r.pred.start == Add32(now, delay) && r.pred.time == nextTime &&
            r.pred.delay == Add32(nextDelay, Skew) && r.pred.first && r.pred.latency == pr.latency &&
            r.pred.timer == Armed(Add32(Add32(delay, nextTime), Add32(nextDelay, Skew))) &&
            !r.disSended && !r.metric
  {
  }

  /** A DIO arriving after its due tick yields a positive latency sample equal
      to its lateness, and the window is predicted afresh from the DIO. */
  lemma LateDio(pr: Prediction, now: uint32, delay: uint32, nextTime: uint32, nextDelay: uint32)
    requires pr.first && now > Due(pr)
    ensures var r := DioReceived(pr, true, false, now, delay, nextTime, nextDelay);
            r.metric && r.pred.latency == now - Due(pr) > 0 &&
            r.pred.start == Add32(now, delay) && r.pred.time == nextTime &&
            r.pred.delay == Add32(nextDelay, Skew) && r.pred.first
  {
  }

  /** A DIO arriving by its due tick takes no latency sample; it re-predicts
      the window only when the advertised time plus padded delay equals the
      stored one, and otherwise changes nothing. */
  lemma OnTimeDio(pr: Prediction, now: uint32, delay: uint32, nextTime: uint32, nextDelay: uint32)
    requires pr.first && now <= Due(pr)
    ensures var r := DioReceived(pr, true, false, now, delay, nextTime, nextDelay);
            !r.metric && !r.disSended &&
            if Add32(nextTime, Add32(nextDelay, Skew)) == Add32(pr.time, pr.delay)
            then r.pred == ScheduleNextDioReception(pr, true, now, delay, nextTime, Add32(nextDelay, Skew))
            else r.pred == pr
  {
  }

  /** `dis_sended` starts at 0 and no entry point of the predictor sets it, so
      the resynchronising branch never runs. */
  lemma ResyncUnreachable(pr: Prediction, preferred: bool, now: uint32,
                          delay: uint32, nextTime: uint32, nextDelay: uint32)
    ensures !DioReceived(pr, preferred, false, now, delay, nextTime, nextDelay).disSended
  {
  }

  /** After the wait timer expires, any DIO from the preferred parent sets
      `first_dio_received` again, which ends the DIS probe loop at its next
      step. */
  lemma DioEndsProbing(pr: Prediction, disSended: bool, now: uint32,
                       delay: uint32, nextTime: uint32, nextDelay: uint32)
    ensures var r := DioReceived(HandleNextDio(pr, true), true, disSended, now, delay, nextTime, nextDelay);
            r.pred.first && r.pred.start == Add32(now, delay)
  {
  }

  /** The parent advertises delay 0, next time 1000 and next delay 500, and
      the first DIO comes at tick `t`. The window then opens at `t + 1000`
      and closes at `t + 1900` (the 400 skew included). A DIO at `t + 1600`
      is late by 600 ticks, since lateness is measured from the opening of
      the window; a DIO at `t + 900` is on time and, advertising the same
      schedule, re-predicts from its own arrival. */
  lemma WindowExample(pr: Prediction, t: uint32)
    requires !pr.first && t + 2000 < U32
    ensures var first := DioReceived(pr, true, false, t, 0, 1000, 500).pred;
            Due(first) == t + 1000 && Add32(Due(first), first.delay) == t + 1900 &&
            DioReceived(first, true, false, t + 1600, 0, 1000, 500).pred.latency == 600 &&
            DioReceived(first, true, false, t + 1600, 0, 1000, 500).metric &&
            !DioReceived(first, true, false, t + 900, 0, 1000, 500).metric &&
            DioReceived(first, true, false, t + 900, 0, 1000, 500).pred.start == t + 900
  {
  }
}
