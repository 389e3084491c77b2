/** The arithmetic of the multilevel feedback queue scheduler that the timer
    interrupt performs: the system load average, the once-a-second decay of a
    thread's `recent_cpu`, and the priority formula, each written with the
    fixed-point operations in the order the interrupt handler calls them. */
module Mlfqs {
  import opened CInt
  import opened FixedPoint

  /** Build-time constants that come from headers outside this model:
      `TIMER_FREQ` (the tick rate, which the timer requires to be between 19
      and 1000), `PRI_MIN` and `PRI_MAX`. */
  datatype Config = Config(timerFreq: int, priMin: int, priMax: int)

  /** A bound on the priority range, generous enough for any kernel build,
      which keeps `PRI_MAX * F` far from the 32-bit limit. */
  const PRI_LIMIT: int := 1024

  predicate ValidConfig(c: Config)
  {
    19 <= c.timerFreq <= 1000 && -PRI_LIMIT <= c.priMin <= c.priMax <= PRI_LIMIT
  }

  /** The usual kernel build: 100 ticks per second, priorities 0 to 63. */
  const PINTOS: Config := Config(100, 0, 63)

  /** The range of a thread's `nice` value. */
  const NICE_MIN: int := -20
  const NICE_MAX: int := 20

  /** At most this many threads count as ready; it keeps `load_avg` at most
      `2^29`, so that `2 * load_avg` fits in 32 bits. */
  const MAX_READY: int := 32768
  const LOAD_AVG_MAX: int := MAX_READY * F

  /** `recent_cpu` values small enough that adding `nice * F` after the decay
      cannot overflow. */
  const DECAY_INPUT_LIMIT: int := INT32_MAX - NICE_MAX * F

  predicate NiceInRange(nice: int) { NICE_MIN <= nice <= NICE_MAX }

  // ---------------------------------------------------------------------
  // Load average

  /** 59/60 in fixed point. */
  function LoadAvgDecayCoefficient(): (c: int)
    ensures c == 16110
  {
    DivFpByFp(ConvIntToFp(59), ConvIntToFp(60))
  }

  /** 1/60 in fixed point. */
  function LoadAvgGainCoefficient(): (c: int)
    ensures c == 273
  {
    DivFpByFp(ConvIntToFp(1), ConvIntToFp(60))
  }

  /** `load_avg = (59/60) * load_avg + (1/60) * ready_threads`. */
  function NextLoadAvg(loadAvg: int, readyThreads: int): (r: int)
    requires 0 <= loadAvg <= LOAD_AVG_MAX && 0 <= readyThreads <= MAX_READY
    ensures 0 <= r <= LOAD_AVG_MAX
  {
    AddFpAndFp(MulFpByFp(LoadAvgDecayCoefficient(), loadAvg),
               MulFpByInt(LoadAvgGainCoefficient(), readyThreads))
  }

  /** The new load average is a (truncated) convex combination of the old one
      and the number of ready threads: it stays within `[0, R]` whenever the
      old value and the ready count do, and stays 0 when nothing is ready. */
  lemma LoadAvgStaysInRange(loadAvg: int, readyThreads: int, bound: int)
    requires 0 <= readyThreads <= bound <= MAX_READY
    requires 0 <= loadAvg <= bound * F
    ensures 0 <= NextLoadAvg(loadAvg, readyThreads) <= bound * F
    ensures bound == 0 ==> NextLoadAvg(loadAvg, readyThreads) == 0
  {
  }

  /** A larger load average or more ready threads never give a smaller new
      load average. */
  lemma {:induction false} NextLoadAvgMonotone(a1: int, a2: int, ready1: int, ready2: int)
    requires 0 <= a1 <= a2 <= LOAD_AVG_MAX
    requires 0 <= ready1 <= ready2 <= MAX_READY
    ensures NextLoadAvg(a1, ready1) <= NextLoadAvg(a2, ready2)
  {
    var q1 := Quot(16110 * a1, F);
    var q2 := Quot(16110 * a2, F);
    assert q1 <= q2;
  }

  /** The load average after `seconds` once-a-second updates from a boot-time
      value of 0, with `ready` threads ready at every update. */
  function LoadAvgAfter(ready: int, seconds: nat): (la: int)
    requires 0 <= ready <= MAX_READY
    ensures 0 <= la <= LOAD_AVG_MAX
  {
    if seconds == 0 then 0 else NextLoadAvg(LoadAvgAfter(ready, seconds - 1), ready)
  }

  /** Below about 273/274 of `R` (the truncated coefficients 16110 and 273
      add up to one unit short of `F`), an update strictly raises the load
      average. */
  lemma {:induction false} NextLoadAvgRises(loadAvg: int, ready: int)
    requires 0 <= ready <= MAX_READY && 0 <= loadAvg <= LOAD_AVG_MAX
    requires 274 * loadAvg <= (273 * ready - 1) * F
    ensures NextLoadAvg(loadAvg, ready) > loadAvg
  {
    var q := Quot(16110 * loadAvg, F);
    assert 16110 * loadAvg - q * F < F;
  }

  /** The load average has not yet come within `(273 * R - 1) / 274` of `R`. */
  predicate BelowLimit(loadAvg: int, ready: int)
  {
    274 * loadAvg <= (273 * ready - 1) * F
  }

  /** With a constant number of ready threads the load average rises
      monotonically from 0, never exceeds that number, and rises strictly
      while it is below `(273 * R - 1) / 274`. */
  lemma {:induction false} LoadAvgConverges(ready: int, seconds: nat)
    requires 0 <= ready <= MAX_READY
    ensures LoadAvgAfter(ready, seconds) <= LoadAvgAfter(ready, seconds + 1) <= ready * F
    ensures BelowLimit(LoadAvgAfter(ready, seconds), ready) ==>
              LoadAvgAfter(ready, seconds) < LoadAvgAfter(ready, seconds + 1)
  {
    if seconds == 0 {
      LoadAvgStaysInRange(0, ready, ready);
    } else {
      LoadAvgConverges(ready, seconds - 1);
      NextLoadAvgMonotone(LoadAvgAfter(ready, seconds - 1), LoadAvgAfter(ready, seconds), ready, ready);
      LoadAvgStaysInRange(LoadAvgAfter(ready, seconds), ready, ready);
    }
    if BelowLimit(LoadAvgAfter(ready, seconds), ready) {
      NextLoadAvgRises(LoadAvgAfter(ready, seconds), ready);
    }
  }

  /** Each second below the limit adds at least one unit, so after `seconds`
      updates the load average is past the limit or at least `seconds`. */
  lemma {:induction false} LoadAvgProgress(ready: int, seconds: nat)
    requires 0 <= ready <= MAX_READY
    ensures !BelowLimit(LoadAvgAfter(ready, seconds), ready) || LoadAvgAfter(ready, seconds) >= seconds
  {
    if seconds > 0 {
      LoadAvgProgress(ready, seconds - 1);
      LoadAvgConverges(ready, seconds - 1);
    }
  }

  /** Within `to_fp(R) + 1` seconds of constant load the load average is past
      `(273 * R - 1) / 274`, and it stays there. */
  lemma LoadAvgReachesLimit(ready: int, seconds: nat)
    requires 0 <= ready <= MAX_READY && seconds > ready * F
    ensures !BelowLimit(LoadAvgAfter(ready, seconds), ready)
  {
    LoadAvgProgress(ready, seconds);
  }

  /** With nothing ready, the load average stays at 0 however many seconds pass. */
  lemma IdleSystemLoadAvgIsZero(seconds: nat)
    ensures LoadAvgAfter(0, seconds) == 0
  {
    if seconds > 0 {
      LoadAvgConverges(0, seconds - 1);
    }
  }

  // ---------------------------------------------------------------------
  // Decay of recent_cpu

  /** `q * b <= a < k * b` forces `q < k`. */
  lemma QuotBelow(a: int, b: int, k: int)
    requires 0 <= a && 0 < b && a < k * b
    ensures Quot(a, b) < k
  {
    var q := Quot(a, b);
    if q >= k {
      MulMonotone(k, b, q, b);
      assert false;
    }
  }

  /** `(2 * load_avg) / (2 * load_avg + 1)` in fixed point: the divisor is
      positive and the coefficient lies in `[0, 1)`. */
  function DecayCoefficient(loadAvg: int): (c: int)
    requires 0 <= loadAvg <= LOAD_AVG_MAX
    ensures 0 <= c < F
    ensures c * (2 * loadAvg + F) <= 2 * loadAvg * F < (c + 1) * (2 * loadAvg + F)
  {
    var twice := MulFpByInt(loadAvg, 2);
    var divisor := AddFpAndInt(twice, 1);
    assert divisor > 0;
    QuotBelow(twice * F, divisor, F);
    DivFpByFp(twice, divisor)
  }

  /** Multiplying by a fixed-point coefficient in `[0, 1)` keeps the sign and
      does not increase the magnitude. */
  lemma ScaleByFraction(c: int, x: int)
    requires 0 <= c < F
    ensures x >= 0 ==> 0 <= Quot(c * x, F) <= x
    ensures x < 0 ==> x <= Quot(c * x, F) <= 0
  {
    var q := Quot(c * x, F);
    if x >= 0 {
      MulMonotone(c, x, F, x);
      MulNonneg(c, x);
    } else {
      MulMonotone(c, -x, F, -x);
      MulNonneg(c, -x);
      assert c * x == -(c * -x);
    }
  }

  /** `recent_cpu = decay * recent_cpu + nice`: the old value scaled by the
      decay coefficient, plus `nice` converted to fixed point. */
  function DecayedRecentCpu(recentCpu: int, nice: int, loadAvg: int): (r: int)
    requires 0 <= loadAvg <= LOAD_AVG_MAX
    requires Abs(recentCpu) <= DECAY_INPUT_LIMIT && NiceInRange(nice)
    ensures IsInt32(r)
    ensures recentCpu >= 0 ==> 0 <= r - nice * F <= recentCpu
    ensures recentCpu < 0 ==> recentCpu <= r - nice * F <= 0
  {
    var c := DecayCoefficient(loadAvg);
    ScaleByFraction(c, recentCpu);
    AddFpAndInt(MulFpByFp(c, recentCpu), nice)
  }

  /** Right after boot the load average is 0, the coefficient is 0, and
      `recent_cpu` decays at once to `nice`. */
  lemma DecayAtZeroLoad(recentCpu: int, nice: int)
    requires Abs(recentCpu) <= DECAY_INPUT_LIMIT && NiceInRange(nice)
    ensures DecayCoefficient(0) == 0
    ensures DecayedRecentCpu(recentCpu, nice, 0) == nice * F
  {
  }

  // ---------------------------------------------------------------------
  // Priority

  /** `PRI_MAX - recent_cpu / 4 - nice * 2`, rounded to the nearest integer:
      within half a unit of the exact fixed-point formula. */
  function RawPriority(cfg: Config, recentCpu: int, nice: int): (raw: int)
    requires ValidConfig(cfg) && IsInt32(recentCpu) && NiceInRange(nice)
    ensures 2 * Abs(raw * F - (cfg.priMax * F - Quot(recentCpu, 4) - nice * 2 * F)) <= F
  {
    var pri := SubFpFromFp(ConvIntToFp(cfg.priMax), DivFpByInt(recentCpu, 4));
    ConvFpToIntRndNearest(SubIntFromFp(pri, nice * 2))
  }

  /** The recomputed priority, clamped first from below to `PRI_MIN`, then
      from above to `PRI_MAX`. */
  function Priority(cfg: Config, recentCpu: int, nice: int): (p: int)
    requires ValidConfig(cfg) && IsInt32(recentCpu) && NiceInRange(nice)
    ensures cfg.priMin <= p <= cfg.priMax
    ensures cfg.priMin <= RawPriority(cfg, recentCpu, nice) <= cfg.priMax ==> p == RawPriority(cfg, recentCpu, nice)
    ensures RawPriority(cfg, recentCpu, nice) < cfg.priMin ==> p == cfg.priMin
    ensures RawPriority(cfg, recentCpu, nice) > cfg.priMax ==> p == cfg.priMax
  {
    var raw := RawPriority(cfg, recentCpu, nice);
    var atLeastMin := if raw < cfg.priMin then cfg.priMin else raw;
    if atLeastMin > cfg.priMax then cfg.priMax else atLeastMin
  }

  /** More recent CPU use, or a higher nice value, never raises the priority. */
  lemma {:induction false} PriorityMonotone(cfg: Config, rc1: int, rc2: int, nice1: int, nice2: int)
    requires ValidConfig(cfg) && IsInt32(rc1) && IsInt32(rc2) && rc1 <= rc2
    requires NiceInRange(nice1) && NiceInRange(nice2) && nice1 <= nice2
    ensures Priority(cfg, rc2, nice2) <= Priority(cfg, rc1, nice1)
  {
    var q1, q2 := Quot(rc1, 4), Quot(rc2, 4);
    assert q1 <= q2;
    var x1 := cfg.priMax * F - q1 - nice1 * 2 * F;
    var x2 := cfg.priMax * F - q2 - nice2 * 2 * F;
    assert x2 <= x1;
    assert RawPriority(cfg, rc2, nice2) <= RawPriority(cfg, rc1, nice1);
  }

  /** An idle thread with no history gets the highest priority; 80 ticks'
      worth of `recent_cpu` cost 20 levels. */
  lemma PriorityExamples()
    ensures Priority(PINTOS, 0, 0) == 63
    ensures Priority(PINTOS, ConvIntToFp(80), 0) == 43
  {
    QuotUnique(0, 0, 4);
    QuotUnique(20 * F, 80 * F, 4);
  }
}
