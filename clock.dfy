/** Fixed-width arithmetic, build-time constants and alarms shared by the RPL
    timer model. The C code computes on `uint32_t` and `uint16_t`; every wrap
    is written out here instead of being left to unbounded integers. */
module Clock {

  const U32: nat := 0x1_0000_0000
  const U16: nat := 0x1_0000

  type uint32 = x: nat | x < U32
  type uint16 = x: nat | x < U16

  datatype Option<T> = None | Some(value: T)

  /** A callback timer (ctimer) as a handler leaves it: stopped (never set,
      stopped, or fired and not set again), or armed to fire after `duration`
      clock ticks. */
  datatype Alarm = Stopped | Armed(duration: nat)

  /** The build-time constants the timer code is compiled with:
      CLOCK_SECOND, RANDOM_RAND_MAX, DEFAULT_DAO_LATENCY, whether RPL_DIS_SEND
      is defined, RPL_DIS_INTERVAL and RPL_DIS_START_DELAY. */
  datatype Config = Config(
    clockSecond: nat,
    randMax: nat,
    daoLatency: nat,
    disSend: bool,
    disInterval: nat,
    disStartDelay: nat)

  /** The divisions by RANDOM_RAND_MAX and the remainder modulo
      DEFAULT_DAO_LATENCY are defined only for non-zero constants. */
  predicate ValidConfig(cfg: Config) {
    cfg.randMax > 0 && cfg.daoLatency > 0
  }

  /** Unsigned 32-bit addition. */
  function Add32(a: nat, b: nat): uint32 {
    (a + b) % U32
  }

  /** Two 32-bit values add up to less than 2^33, so the sum wraps at most
      once. */
  lemma Add32Wraps(a: uint32, b: uint32)
    ensures Add32(a, b) == if a + b < U32 then a + b else a + b - U32
  {
    if a + b >= U32 {
      assert (a + b) % U32 == (a + b - U32) % U32;
    }
  }

  lemma Add32Assoc(a: uint32, b: uint32, c: uint32)
    ensures Add32(a, Add32(b, c)) == Add32(Add32(a, b), c)
  {
    Add32Wraps(b, c);
    Add32Wraps(a, b);
    Add32Wraps(a, Add32(b, c));
    Add32Wraps(Add32(a, b), c);
  }

  function Pow2(e: nat): nat {
    if e == 0 then 1 else 2 * Pow2(e - 1)
  }

  /** `1UL << e` stored into a `uint32_t`. */
  function Shl32(e: nat): uint32 {
    Pow2(e) % U32
  }

  /** `(d * CLOCK_SECOND) / 1000` on 32-bit unsigned operands: a duration of
      `d` milliseconds in clock ticks. */
  function Scale(cfg: Config, d: uint32): uint32 {
    (d * cfg.clockSecond % U32) / 1000
  }

  /** A non-negative factor keeps an order. */
  lemma MulMonotone(x: int, y: int, c: nat)
    requires x <= y
    ensures c * x <= c * y
  {
    assert c * y - c * x == c * (y - x);
  }

  /** A positive factor cancels from a strict order. */
  lemma MulCancelLt(x: int, y: int, c: nat)
    requires 0 < c && c * x < c * y
    ensures x < y
  {
    assert c * y - c * x == c * (y - x);
  }

  /** `a == c * (a / c) + a % c` with the remainder in `[0, c)`, spelled out. */
  lemma DivBounds(a: nat, c: nat)
    requires 0 < c
    ensures c * (a / c) <= a < c * (a / c) + c
  {
  }

  lemma DivAtMost(a: nat, b: nat, c: nat)
    requires 0 < c && a <= b * c
    ensures a / c <= b
  {
    DivBounds(a, c);
    assert c * (b + 1) == c * b + c;
    MulCancelLt(a / c, b + 1, c);
  }

  lemma DivMonotone(a: nat, b: nat, c: nat)
    requires 0 < c && a <= b
    ensures a / c <= b / c
  {
    DivBounds(a, c);
    DivBounds(b, c);
    assert c * (b / c + 1) == c * (b / c) + c;
    MulCancelLt(a / c, b / c + 1, c);
  }

  lemma MulDivCancel(a: nat, c: nat)
    requires 0 < c
    ensures a * c / c == a
  {
    var q := a * c / c;
    DivBounds(a * c, c);
    assert c * (a + 1) == c * a + c;
    assert c * (q + 1) == c * q + c;
    MulCancelLt(q, a + 1, c);
    MulCancelLt(a, q + 1, c);
  }

  /** The remainder of a non-negative value is at most the value. */
  lemma ModAtMost(x: nat, m: nat)
    requires 0 < m
    ensures x % m <= x
  {
    DivBounds(x, m);
    MulMonotone(0, x / m, m);
  }

  /** The random share added to the half interval never exceeds the half,
      also when `half * rand` wraps around 2^32. */
  lemma ShareAtMostHalf(half: nat, rand: nat, max: nat)
    requires 0 < max && rand <= max
    ensures (half * rand % U32) / max <= half
  {
    var p := half * rand;
    ModAtMost(p, U32);
    MulMonotone(rand, max, half);
    assert half * max == max * half;
    DivAtMost(p % U32, half, max);
  }

  /** The send point and the remainder of an interval, as `new_interval`
      leaves them in `*time` and `*next`. */
  datatype Split = Split(time: uint32, next: uint32)

  /** `(half * random_rand()) / RANDOM_RAND_MAX` with a 32-bit product: the
      random part of the send point. */
  function Share(half: nat, rand: nat, max: nat): (r: nat)
    requires 0 < max && rand <= max
    ensures r <= half
  {
    ShareAtMostHalf(half, rand, max);
    (half * rand % U32) / max
  }

  /** `new_interval`: scale `d` milliseconds to ticks and split the result at
      a random point of its second half. The two parts always add up to the
      scaled interval and the send point never falls in the first half. */
  function NewInterval(cfg: Config, d: uint32, rand: nat): (r: Split)
    requires ValidConfig(cfg) && rand <= cfg.randMax
    ensures r.time + r.next == Scale(cfg, d)
    ensures Scale(cfg, d) / 2 <= r.time <= Scale(cfg, d)
  {
    var total := Scale(cfg, d);
    var share := Share(total / 2, rand, cfg.randMax);
    SplitFits(total, share);
    var time := (total / 2 + share) % U32;
    Split(time, (total - time) % U32)
  }

  lemma SplitFits(total: uint32, share: nat)
    requires share <= total / 2
    ensures (total / 2 + share) % U32 == total / 2 + share
    ensures (total - (total / 2 + share)) % U32 == total - (total / 2 + share)
  {
  }

  /** While `half * rand` fits in 32 bits the send point is the intended
      `half + half * rand / RANDOM_RAND_MAX`. */
  lemma NewIntervalExact(cfg: Config, d: uint32, rand: nat)
    requires ValidConfig(cfg) && rand <= cfg.randMax
    requires Scale(cfg, d) / 2 * rand < U32
    ensures NewInterval(cfg, d, rand).time
            == Scale(cfg, d) / 2 + Scale(cfg, d) / 2 * rand / cfg.randMax
  {
    var half := Scale(cfg, d) / 2;
    var p := half * rand;
    assert p % U32 == p;
    assert Share(half, rand, cfg.randMax) == p / cfg.randMax;
  }

  /** Once `half * rand` wraps, the send point lies at most
      `(2^32 - 1) / RANDOM_RAND_MAX` ticks after the half: it is no longer
      spread over the whole second half of the interval. */
  lemma NewIntervalWrapBound(cfg: Config, d: uint32, rand: nat)
    requires ValidConfig(cfg) && rand <= cfg.randMax
    ensures NewInterval(cfg, d, rand).time <= Scale(cfg, d) / 2 + (U32 - 1) / cfg.randMax
  {
    var half := Scale(cfg, d) / 2;
    var w := half * rand % U32;
    var share := Share(half, rand, cfg.randMax);
    assert share == w / cfg.randMax;
    SplitFits(Scale(cfg, d), share);
    assert NewInterval(cfg, d, rand).time == half + share;
    DivMonotone(w, U32 - 1, cfg.randMax);
  }

  /** A 2^21 ms interval at CLOCK_SECOND 1000 with the largest random value:
      the send point is 2^20 + 65520 ticks, far from the 2^21 a wide
      multiplication would give. */
  lemma NewIntervalWrapExample()
    ensures var cfg := Config(1000, 65535, 1, false, 0, 0);
            Scale(cfg, 2097152) == 2097152 &&
            NewInterval(cfg, 2097152, 65535) == Split(1114096, 983056)
  {
  }

  /** The delay `rpl_schedule_dao` arms the DAO timer with:
      `DEFAULT_DAO_LATENCY / 2 + random_rand() % DEFAULT_DAO_LATENCY`. */
  function DaoDelay(cfg: Config, rand: nat): (r: nat)
    requires ValidConfig(cfg)
    ensures cfg.daoLatency / 2 <= r < cfg.daoLatency / 2 + cfg.daoLatency
  {
    cfg.daoLatency / 2 + rand % cfg.daoLatency
  }

  /** The span, in clock ticks, of the random delay between two DIS probes. */
  const ProbeSpan: nat := 100000

  /** `(100000 * random_rand()) / RANDOM_RAND_MAX` as the C evaluates it:
      the product is a 32-bit `int`, which overflows for random values of
      21475 and above; on the usual two's-complement targets it wraps and
      is then divided as an unsigned value. */
  function ProbeDelayAsWritten(cfg: Config, rand: nat): nat
    requires ValidConfig(cfg)
  {
    (ProbeSpan * rand % U32) / cfg.randMax
  }

  /** The probe delay the expression is meant to compute: uniform over
      `[0, 100000]` ticks, reaching the full span at RANDOM_RAND_MAX. */
  function ProbeDelay(cfg: Config, rand: nat): (r: nat)
    requires ValidConfig(cfg) && rand <= cfg.randMax
    ensures r <= ProbeSpan
    ensures rand == cfg.randMax ==> r == ProbeSpan
  {
    ScaledAtMost(ProbeSpan, rand, cfg.randMax);
    ProbeSpan * rand / cfg.randMax
  }

  lemma ScaledAtMost(span: nat, rand: nat, max: nat)
    requires 0 < max && rand <= max
    ensures span * rand / max <= span
    ensures rand == max ==> span * rand / max == span
  {
    assert span * rand <= span * max by {
      assert span * max - span * rand == span * (max - rand);
    }
    DivAtMost(span * rand, span, max);
    if rand == max {
      MulDivCancel(span, max);
    }
  }

  /** With RANDOM_RAND_MAX 65535 the largest random value overflows the
      product: the written expression yields 34462 ticks where 100000 is
      meant, and its product exceeds the largest 32-bit `int`. */
  lemma ProbeDelayOverflow()
    ensures var cfg := Config(128, 65535, 1, false, 0, 0);
            ProbeSpan * 65535 > 0x7fff_ffff &&
            ProbeDelayAsWritten(cfg, 65535) == 34462 &&
            ProbeDelay(cfg, 65535) == ProbeSpan
  {
  }
}
