/** The one-second maintenance timer and its DIS countdown `next_dis`, a
    `uint16_t` that counts ticks while the node belongs to no DAG. */
module Maintenance {
  import opened Clock

  /** The countdown after one tick, and whether a multicast DIS went out. */
  datatype Tick = Tick(nextDis: uint16, probe: bool)

  /** `rpl_reset_periodic_timer` sets the countdown to
      `RPL_DIS_INTERVAL - RPL_DIS_START_DELAY`, so that the first DIS comes
      `RPL_DIS_START_DELAY` ticks after the start rather than a whole
      interval. */
  function StartCount(cfg: Config): (r: uint16)
    ensures cfg.disStartDelay <= cfg.disInterval < U16 ==> r + cfg.disStartDelay == cfg.disInterval
  {
    (cfg.disInterval - cfg.disStartDelay) % U16
  }

  /** The DIS part of `handle_periodic_timer`: with RPL_DIS_SEND defined the
      countdown advances, and when it reaches RPL_DIS_INTERVAL while the node
      has no DAG a DIS is multicast and the countdown restarts from 0. */
  function PeriodicTick(cfg: Config, nextDis: uint16, dagExists: bool): (r: Tick)
    ensures r.probe <==> cfg.disSend && !dagExists && (nextDis + 1) % U16 >= cfg.disInterval
    ensures r.probe ==> r.nextDis == 0
    ensures !r.probe ==> r.nextDis == if cfg.disSend then (nextDis + 1) % U16 else nextDis
  {
    if !cfg.disSend then Tick(nextDis, false)
    else
      var n := (nextDis + 1) % U16;
      if !dagExists && n >= cfg.disInterval then Tick(0, true) else Tick(n, false)
  }

  /** `k` ticks with no DAG: the countdown they leave and the number of DIS
      messages they send. */
  function Ticks(cfg: Config, nextDis: uint16, k: nat): (uint16, nat)
    decreases k
  {
    if k == 0 then (nextDis, 0)
    else
      var t := PeriodicTick(cfg, nextDis, false);
      var rest := Ticks(cfg, t.nextDis, k - 1);
      (rest.0, rest.1 + if t.probe then 1 else 0)
  }

  /** Ticks that keep the countdown below RPL_DIS_INTERVAL send nothing. */
  lemma {:induction false} QuietTicks(cfg: Config, nextDis: uint16, k: nat)
    requires cfg.disSend && nextDis + k < cfg.disInterval <= U16
    ensures Ticks(cfg, nextDis, k) == (nextDis + k, 0)
    decreases k
  {
    if k > 0 {
      QuietTicks(cfg, nextDis + 1, k - 1);
    }
  }

  /** The tick that brings the countdown to RPL_DIS_INTERVAL sends the one
      DIS of the run and restarts the countdown. */
  lemma {:induction false} ProbeAtInterval(cfg: Config, nextDis: uint16, k: nat)
    requires cfg.disSend && 0 < k && nextDis + k == cfg.disInterval < U16
    ensures Ticks(cfg, nextDis, k) == (0, 1)
    decreases k
  {
    if k > 1 {
      ProbeAtInterval(cfg, nextDis + 1, k - 1);
    }
  }

  /** After a start, the first DIS goes out on tick RPL_DIS_START_DELAY and
      not before; after that one DIS goes out every RPL_DIS_INTERVAL ticks. */
  lemma ProbeSchedule(cfg: Config)
    requires cfg.disSend && 0 < cfg.disStartDelay <= cfg.disInterval < U16
    ensures Ticks(cfg, StartCount(cfg), cfg.disStartDelay - 1) == (cfg.disInterval - 1, 0)
    ensures Ticks(cfg, StartCount(cfg), cfg.disStartDelay) == (0, 1)
    ensures Ticks(cfg, 0, cfg.disInterval) == (0, 1)
  {
    QuietTicks(cfg, StartCount(cfg), cfg.disStartDelay - 1);
    ProbeAtInterval(cfg, StartCount(cfg), cfg.disStartDelay);
    ProbeAtInterval(cfg, 0, cfg.disInterval);
  }
}
