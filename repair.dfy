/** The DAO (repair) timer of a DAG: a debounced timer that sends one DAO
    toward the preferred parent (DAO scheduling, section 9.5 of RFC 6550). */
module Repair {
  import opened Clock

  /** `rpl_schedule_dao`. `expired` is what `etimer_expired` reports for an
      armed timer (its expiration time has passed); a stopped timer always
      counts as expired. A timer still pending is left as it is; otherwise it
      is armed for a delay in `[L/2, L/2 + L)`, `L` the default DAO latency. */
  function ScheduleDao(cfg: Config, timer: Alarm, expired: bool, rand: nat): (r: Alarm)
    requires ValidConfig(cfg)
    ensures timer.Armed? && !expired ==> r == timer
    ensures !timer.Armed? || expired ==>
              r.Armed? && cfg.daoLatency / 2 <= r.duration < cfg.daoLatency / 2 + cfg.daoLatency
  {
    if timer.Armed? && !expired then timer else Armed(DaoDelay(cfg, rand))
  }

  /** A second request while the first is still pending changes nothing: two
      requests in a row arm the timer once. */
  lemma Debounce(cfg: Config, timer: Alarm, expired: bool, rand1: nat, rand2: nat)
    requires ValidConfig(cfg)
    ensures var once := ScheduleDao(cfg, timer, expired, rand1);
            ScheduleDao(cfg, once, false, rand2) == once
  {
  }

  /** The DAO timer after it fires, and whether a DAO went out. */
  datatype DaoFired = DaoFired(timer: Alarm, send: bool)

  /** `handle_dao_timer`. While neither `dio_send_ok` is set nor a link-local
      address exists it re-arms for one second; otherwise it sends a DAO
      exactly when there is a preferred parent and stops the timer. */
  function HandleDaoTimer(cfg: Config, sendOk: bool, linkLocal: bool, hasParent: bool): (r: DaoFired)
    ensures r.send <==> (sendOk || linkLocal) && hasParent
    ensures r.timer != Stopped <==> !sendOk && !linkLocal
    ensures r.timer != Stopped ==> r.timer == Armed(cfg.clockSecond)
  {
    if !sendOk && !linkLocal then DaoFired(Armed(cfg.clockSecond), false)
    else DaoFired(Stopped, hasParent)
  }
}
