/** The timer layer of an RPL node as the C file keeps it: per-DAG fields,
    per-parent prediction fields and a handful of module statics, changed
    in place by callbacks. Each callback is a method proved to leave exactly
    the state its pure counterpart describes; the transmissions it makes are
    appended to a ghost trace. */
module RplTimers {
  import opened Clock
  import Trickle
  import Repair
  import Maintenance
  import Predictor

  /** Calls into collaborators outside the timer layer. */
  datatype Event =
    | DioOutput(dag: Dag)                                        // dio_output(dag, NULL)
    | DioSetNext(time: uint32, delay: uint32, current: uint32)   // dio_output_set_next
    | DaoOutput(parent: Parent, lifetime: nat)                   // dao_output
    | DisOutput(target: Option<Parent>)                          // dis_output: unicast or multicast
    | PurgeRoutes                                                // rpl_purge_routes
    | RecalculateRanks                                           // rpl_recalculate_ranks
    | MetricUpdate(dag: Dag)                                     // of->update_metric_container

  /** The module-level `dis_timer`, shared by all parents: stopped, or armed
      to run `send_dis` for `target`. */
  datatype ProbeAlarm = ProbeStopped | ProbeArmed(duration: nat, target: Parent)

  /** The fields of `rpl_dag_t` that the timers read or write. */
  class Dag {
    var intCurrent: nat
    var intMin: nat
    var intDoubl: nat
    var redundancy: nat
    var counter: nat
    var dioSend: bool
    var nextDelay: uint32
    var dioTimer: Alarm
    var daoTimer: Alarm
    var preferredParent: Parent?
    var defaultLifetime: nat

    function Dio(): Trickle.DioState
      reads this
    {
      Trickle.DioState(intCurrent, intMin, intDoubl, redundancy, counter, dioSend, nextDelay, dioTimer)
    }

    ghost predicate Valid()
      reads this
    {
      Trickle.WellFormed(Dio())
    }

    /** A DAG as the node joins it: at the minimum interval, timers stopped,
        no preferred parent yet. */
    constructor (intMin: nat, intDoubl: nat, redundancy: nat, lifetime: nat)
      requires intMin + intDoubl < 256
      ensures Valid()
      ensures Dio() == Trickle.DioState(intMin, intMin, intDoubl, redundancy, 0, false, 0, Stopped)
      ensures daoTimer == Stopped && preferredParent == null && defaultLifetime == lifetime
    {
      this.intCurrent := intMin;
      this.intMin := intMin;
      this.intDoubl := intDoubl;
      this.redundancy := redundancy;
      this.counter := 0;
      this.dioSend := false;
      this.nextDelay := 0;
      this.dioTimer := Stopped;
      this.daoTimer := Stopped;
      this.preferredParent := null;
      this.defaultLifetime := lifetime;
    }
  }

  /** The prediction fields of `rpl_parent_t`. */
  class Parent {
    const dag: Dag
    var start: uint32
    var time: uint32
    var delay: uint32
    var firstDioReceived: bool
    var latencyMetric: uint32
    var latencyTimer: Alarm

    function Prediction(): Predictor.Prediction
      reads this
    {
      Predictor.Prediction(start, time, delay, firstDioReceived, latencyMetric, latencyTimer)
    }

    /** `p->dag->preferred_parent == p`. */
    predicate IsPreferred()
      reads this, dag
    {
      dag.preferredParent == this
    }

    constructor (dag: Dag)
      ensures this.dag == dag
      ensures Prediction() == Predictor.Prediction(0, 0, 0, false, 0, Stopped)
    {
      this.dag := dag;
      start, time, delay := 0, 0, 0;
      firstDioReceived := false;
      latencyMetric := 0;
      latencyTimer := Stopped;
    }

    /** `rpl_schedule_next_dio_reception`. */
    method ScheduleNextDioReception(now: uint32, delay: uint32, nextTime: uint32, nextDelay: uint32)
      modifies this`start, this`time, this`delay, this`latencyTimer
      ensures Prediction() == Predictor.ScheduleNextDioReception(
                old(Prediction()), IsPreferred(), now, delay, nextTime, nextDelay)
    {
      if dag.preferredParent == this {
        this.delay := nextDelay;
        this.time := nextTime;
        this.start := Add32(now, delay);
        this.latencyTimer := Armed(Add32(Add32(delay, nextTime), nextDelay));
      }
    }
  }

  /** The statics of the timer module, with the build constants and the trace
      of calls made to collaborators. */
  class Node {
    const cfg: Config
    var nextTime: uint32
    var nextDelay: uint32
    var dioSendOk: bool
    var nextDis: uint16
    var disSended: bool
    var periodicTimer: Alarm
    var probeTimer: ProbeAlarm
    ghost var trace: seq<Event>

    function LookAhead(): Trickle.LookAhead
      reads this
    {
      Trickle.LookAhead(nextTime, nextDelay)
    }

    /** The build constants are usable, and `dis_sended` is clear: it starts
        clear and nothing in the timer module ever sets it. */
    ghost predicate Valid()
      reads this
    {
      ValidConfig(cfg) && !disSended
    }

    /** The statics as the program starts: all zero, timers stopped. */
    constructor (cfg: Config)
      requires ValidConfig(cfg)
      ensures Valid() && this.cfg == cfg
      ensures LookAhead() == Trickle.LookAhead(0, 0) && !dioSendOk && nextDis == 0 && !disSended
      ensures periodicTimer == Stopped && probeTimer == ProbeStopped && trace == []
    {
      this.cfg := cfg;
      nextTime, nextDelay := 0, 0;
      dioSendOk := false;
      nextDis := 0;
      disSended := false;
      periodicTimer := Stopped;
      probeTimer := ProbeStopped;
      trace := [];
    }

    /** `rpl_reset_periodic_timer`. */
    method ResetPeriodicTimer()
      requires Valid()
      modifies this`nextDis, this`periodicTimer
      ensures Valid()
      ensures nextDis == Maintenance.StartCount(cfg)
      ensures periodicTimer == Armed(cfg.clockSecond)
    {
      nextDis := (cfg.disInterval - cfg.disStartDelay) % U16;
      periodicTimer := Armed(cfg.clockSecond);
    }

    /** `handle_periodic_timer`; `dagExists` is whether `rpl_get_dag` finds a
        DAG. `ctimer_reset` re-arms the heartbeat for the interval it already
        has, so the timer is left as it is. */
    method HandlePeriodicTimer(dagExists: bool)
      requires Valid()
      modifies this`nextDis, this`trace
      ensures Valid()
      ensures var t := Maintenance.PeriodicTick(cfg, old(nextDis), dagExists);
              nextDis == t.nextDis &&
              trace == old(trace) + [PurgeRoutes, RecalculateRanks] + (if t.probe then [DisOutput(None)] else [])
    {
      trace := trace + [PurgeRoutes, RecalculateRanks];
      if cfg.disSend {
        nextDis := (nextDis + 1) % U16;
        if !dagExists && nextDis >= cfg.disInterval {
          nextDis := 0;
          trace := trace + [DisOutput(None)];
        }
      }
    }

    /** `new_dio_interval`. */
    method NewDioInterval(dag: Dag, randNow: nat, randAhead: nat)
      requires Valid() && dag.Valid()
      requires randNow <= cfg.randMax && randAhead <= cfg.randMax
      modifies this`nextTime, this`nextDelay, this`trace
      modifies dag`dioSend, dag`counter, dag`nextDelay, dag`dioTimer
      ensures Valid() && dag.Valid()
      ensures var r := Trickle.NewDioInterval(cfg, old(dag.Dio()), old(LookAhead()), randNow, randAhead);
              dag.Dio() == r.dio && LookAhead() == r.ahead &&
              trace == old(trace) + [DioSetNext(r.ahead.time, r.ahead.delay, r.dio.nextDelay)]
    {
      var time: uint32;
      if nextTime == 0 {
        var split := NewInterval(cfg, Shl32(dag.intCurrent), randNow);
        time, dag.nextDelay := split.time, split.next;
      } else {
        time, dag.nextDelay := nextTime, nextDelay;
      }
      dag.dioSend := true;
      dag.counter := 0;
      dag.dioTimer := Armed(time);
      var ahead := NewInterval(cfg, Shl32(dag.intCurrent + 1), randAhead);
      nextTime, nextDelay := ahead.time, ahead.next;
      trace := trace + [DioSetNext(nextTime, nextDelay, dag.nextDelay)];
    }

    /** `handle_dio_timer`; `linkLocal` is whether a preferred link-local
        address exists. */
    method HandleDioTimer(dag: Dag, linkLocal: bool, randNow: nat, randAhead: nat)
      requires Valid() && dag.Valid()
      requires randNow <= cfg.randMax && randAhead <= cfg.randMax
      modifies this`nextTime, this`nextDelay, this`dioSendOk, this`trace
      modifies dag`intCurrent, dag`dioSend, dag`counter, dag`nextDelay, dag`dioTimer
      ensures Valid() && dag.Valid()
      ensures var r := Trickle.HandleDioTimer(cfg, old(dag.Dio()), old(LookAhead()), old(dioSendOk),
                                              linkLocal, randNow, randAhead);
              dag.Dio() == r.dio && LookAhead() == r.ahead && dioSendOk == r.sendOk &&
              trace == old(trace) + (if r.sent then [DioOutput(dag)] else [])
                                  + (if r.started then [DioSetNext(r.ahead.time, r.ahead.delay, r.dio.nextDelay)] else [])
    {
      if !dioSendOk {
        if linkLocal {
          dioSendOk := true;
        } else {
          dag.dioTimer := Armed(cfg.clockSecond);
          return;
        }
      }
      if dag.dioSend {
        if dag.counter < dag.redundancy {
          trace := trace + [DioOutput(dag)];
        }
        dag.dioSend := false;
        dag.dioTimer := Armed(dag.nextDelay);
      } else {
        if dag.intCurrent < dag.intMin + dag.intDoubl {
          dag.intCurrent := dag.intCurrent + 1;
        }
        NewDioInterval(dag, randNow, randAhead);
      }
    }

    /** `rpl_reset_dio_timer`. */
    method ResetDioTimer(dag: Dag, force: bool, randNow: nat, randAhead: nat)
      requires Valid() && dag.Valid()
      requires randNow <= cfg.randMax && randAhead <= cfg.randMax
      modifies this`nextTime, this`nextDelay, this`trace
      modifies dag`intCurrent, dag`dioSend, dag`counter, dag`nextDelay, dag`dioTimer
      ensures Valid() && dag.Valid()
      ensures var r := Trickle.ResetDioTimer(cfg, old(dag.Dio()), old(LookAhead()), force, randNow, randAhead);
              dag.Dio() == r.dio && LookAhead() == r.ahead &&
              trace == old(trace) + (if force || old(dag.intCurrent) > dag.intMin
                                     then [DioSetNext(r.ahead.time, r.ahead.delay, r.dio.nextDelay)] else [])
    {
      if force || dag.intCurrent > dag.intMin {
        dag.counter := 0;
        dag.intCurrent := dag.intMin;
        nextTime := 0;
        NewDioInterval(dag, randNow, randAhead);
      }
    }

    /** `handle_dao_timer`. */
    method HandleDaoTimer(dag: Dag, linkLocal: bool)
      requires Valid()
      modifies dag`daoTimer, this`trace
      ensures Valid()
      ensures var r := Repair.HandleDaoTimer(cfg, dioSendOk, linkLocal, dag.preferredParent != null);
              dag.daoTimer == r.timer &&
              trace == old(trace) + (if r.send then [DaoOutput(dag.preferredParent, dag.defaultLifetime)] else [])
    {
      if !dioSendOk && !linkLocal {
        dag.daoTimer := Armed(cfg.clockSecond);
        return;
      }
      if dag.preferredParent != null {
        trace := trace + [DaoOutput(dag.preferredParent, dag.defaultLifetime)];
      }
      dag.daoTimer := Stopped;
    }

    /** `rpl_schedule_dao`; `expired` is whether the expiration time of an
        armed DAO timer has passed. */
    method ScheduleDao(dag: Dag, expired: bool, rand: nat)
      requires Valid()
      modifies dag`daoTimer
      ensures dag.daoTimer == Repair.ScheduleDao(cfg, old(dag.daoTimer), expired, rand)
    {
      if !dag.daoTimer.Armed? || expired {
        dag.daoTimer := Armed(DaoDelay(cfg, rand));
      }
    }

    /** `handle_next_dio`, run when the wait timer of `p` fires; the timer is
        not set again. For the preferred parent, invalidate the prediction
        and arm the shared probe timer to start sending DIS to it. */
    method HandleNextDio(p: Parent, rand: nat)
      requires Valid() && rand <= cfg.randMax
      modifies p`firstDioReceived, p`latencyTimer, this`probeTimer
      ensures Valid()
      ensures p.Prediction() == Predictor.HandleNextDio(old(p.Prediction()), p.IsPreferred())
      ensures probeTimer == if p.IsPreferred() then ProbeArmed(ProbeDelay(cfg, rand), p) else old(probeTimer)
    {
      p.latencyTimer := Stopped;
      if p.dag.preferredParent == p {
        p.firstDioReceived := false;
        probeTimer := ProbeArmed(ProbeDelay(cfg, rand), p);
      }
    }

    /** `send_dis`, run when the shared probe timer fires: while no DIO has
        come from `p`, send it a unicast DIS and re-arm for another random
        delay; once one has come, the timer is not set again and probing
        ends. Whether `p` is still the preferred parent is not checked. */
    method SendDis(p: Parent, rand: nat)
      requires Valid() && rand <= cfg.randMax
      modifies this`probeTimer, this`trace
      ensures Valid()
      ensures p.firstDioReceived ==> probeTimer == ProbeStopped && trace == old(trace)
      ensures !p.firstDioReceived ==>
                probeTimer == ProbeArmed(ProbeDelay(cfg, rand), p) && probeTimer.duration <= ProbeSpan &&
                trace == old(trace) + [DisOutput(Some(p))]
    {
      if !p.firstDioReceived {
        trace := trace + [DisOutput(Some(p))];
        probeTimer := ProbeArmed(ProbeDelay(cfg, rand), p);
      } else {
        probeTimer := ProbeStopped;
      }
    }

    /** `rpl_dio_received` for a DIO from `p` arriving at tick `now`. The
        method is stated for every value of `dis_sended`, so that the branch
        it guards is modelled too; from a valid node, where that flag is
        clear, the node stays valid and the branch is not taken. */
    method DioReceived(p: Parent, now: uint32, delay: uint32, nextTime: uint32, nextDelay: uint32)
      modifies p`start, p`time, p`delay, p`firstDioReceived, p`latencyMetric, p`latencyTimer
      modifies this`disSended, this`trace
      ensures old(Valid()) ==> Valid()
      ensures var r := Predictor.DioReceived(old(p.Prediction()), p.IsPreferred(), old(disSended),
                                             now, delay, nextTime, nextDelay);
              p.Prediction() == r.pred && disSended == r.disSended &&
              trace == old(trace) + (if r.metric then [MetricUpdate(p.dag)] else [])
    {
      if p.dag.preferredParent == p {
        var padded := Add32(nextDelay, Predictor.Skew);
        if !p.firstDioReceived {
          p.ScheduleNextDioReception(now, delay, nextTime, padded);
          p.firstDioReceived := true;
          disSended := false;
        } else {
          if disSended {
            var residual := (p.start + p.time + p.delay + nextTime - now) % 256;
            p.latencyTimer := Armed(Add32(residual, padded));
            p.time := nextTime;
            p.delay := padded;
            disSended := false;
          }
          if now > Add32(p.start, p.time) {
            p.latencyMetric := now - Add32(p.start, p.time);
            trace := trace + [MetricUpdate(p.dag)];
            p.ScheduleNextDioReception(now, delay, nextTime, padded);
          } else if Add32(nextTime, padded) == Add32(p.time, p.delay) {
            p.ScheduleNextDioReception(now, delay, nextTime, padded);
          }
        }
      }
    }
  }
}
