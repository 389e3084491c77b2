/** The timer driver: the tick counter and what the tick interrupt does to
    the scheduler's state when aging or the multilevel feedback queue
    scheduler is on, the calibration of `loops_per_tick`, and the conversion
    of a real-time sleep or delay into timer ticks or busy-wait loops.

    `all_list` is an array of thread records; the running thread and the idle
    thread are given by their index in it. The size of the ready list, which
    belongs to the thread module, is an input. */
module Timer {
  import opened CInt
  import opened FixedPoint
  import opened Mlfqs
  import opened Calibration

  // ---------------------------------------------------------------------
  // Scheduler state

  datatype Status = Running | Ready | Blocked | Dying

  /** The fields of `struct thread` the interrupt reads or writes. */
  datatype Thread = Thread(recentCpu: int, nice: int, priority: int, status: Status)

  /** A bound on `recent_cpu` that leaves room for one more tick's increment
      followed by a decay step without overflowing 32 bits. */
  const RECENT_CPU_LIMIT: int := DECAY_INPUT_LIMIT - F

  /** A thread whose update on this tick cannot overflow. */
  predicate Bounded(t: Thread)
  {
    Abs(t.recentCpu) <= RECENT_CPU_LIMIT && NiceInRange(t.nice)
  }

  /** A thread whose `recent_cpu` can be decayed without overflow. */
  predicate Decayable(t: Thread)
  {
    Abs(t.recentCpu) <= DECAY_INPUT_LIMIT && NiceInRange(t.nice)
  }

  /** A thread whose priority can be recomputed without overflow. */
  predicate Prioritizable(t: Thread)
  {
    IsInt32(t.recentCpu) && NiceInRange(t.nice)
  }

  /** The timer's and the scheduler's state: `ticks`, `load_avg` and
      `all_list`. */
  datatype Sched = Sched(ticks: int, loadAvg: int, threads: seq<Thread>)

  /** The state the per-tick scheduler updates may start from: the load
      average is in its range, the current and idle threads are in
      `all_list`, and no thread's update can overflow. */
  predicate CanAge(s: Sched, current: nat, idle: nat)
  {
    && 0 <= s.loadAvg <= LOAD_AVG_MAX
    && current < |s.threads| && idle < |s.threads|
    && forall i :: 0 <= i < |s.threads| ==> Bounded(s.threads[i])
  }

  /** The state a tick may start from: besides, the tick counter can still
      be incremented. */
  predicate CanTick(s: Sched, current: nat, idle: nat)
  {
    0 <= s.ticks < INT64_MAX && CanAge(s, current, idle)
  }

  /** `timer_elapsed`: ticks since `start`, an earlier reading of the counter. */
  function Elapsed(s: Sched, start: int): (e: int)
  {
    s.ticks - start
  }

  // ---------------------------------------------------------------------
  // The tick interrupt, as a function of the state before it

  /** The number of ready threads the load average counts: the ready list,
      plus the running thread unless it is the idle thread. */
  function ReadyThreads(readySize: int, threads: seq<Thread>, current: nat, idle: nat): (r: int)
    requires current < |threads|
    ensures r == readySize + 1 <==> current != idle && threads[current].status == Running
    ensures r == readySize || r == readySize + 1
  {
    if current != idle && threads[current].status == Running then readySize + 1 else readySize
  }

  /** The running thread is charged one tick of CPU, unless it is the idle thread. */
  function Accrue(threads: seq<Thread>, current: nat, idle: nat): (r: seq<Thread>)
    requires current < |threads| && Bounded(threads[current])
    ensures |r| == |threads|
    ensures forall i :: 0 <= i < |r| && i != current ==> r[i] == threads[i]
    ensures current == idle ==> r[current] == threads[current]
    ensures current != idle ==> r[current] == threads[current].(recentCpu := threads[current].recentCpu + F)
  {
    if current == idle then threads
    else
      var t := threads[current];
      threads[current := t.(recentCpu := AddFpAndInt(t.recentCpu, 1))]
  }

  function DecayThread(t: Thread, loadAvg: int): (r: Thread)
    requires 0 <= loadAvg <= LOAD_AVG_MAX && Decayable(t)
    ensures Prioritizable(r)
    ensures r == t.(recentCpu := DecayedRecentCpu(t.recentCpu, t.nice, loadAvg))
  {
    t.(recentCpu := DecayedRecentCpu(t.recentCpu, t.nice, loadAvg))
  }

  /** Every thread in `all_list`, the idle thread included, has its
      `recent_cpu` decayed with the new load average. */
  function DecayAll(threads: seq<Thread>, loadAvg: int): (r: seq<Thread>)
    requires 0 <= loadAvg <= LOAD_AVG_MAX
    requires forall i :: 0 <= i < |threads| ==> Decayable(threads[i])
    ensures |r| == |threads|
    ensures forall i :: 0 <= i < |r| ==> r[i] == DecayThread(threads[i], loadAvg)
  {
    seq(|threads|, i requires 0 <= i < |threads| => DecayThread(threads[i], loadAvg))
  }

  function Reprioritize(cfg: Config, t: Thread): (r: Thread)
    requires ValidConfig(cfg) && Prioritizable(t)
    ensures r == t.(priority := Priority(cfg, t.recentCpu, t.nice))
  {
    t.(priority := Priority(cfg, t.recentCpu, t.nice))
  }

  /** Every thread but the idle thread gets its priority recomputed. */
  function ReprioritizeAll(cfg: Config, threads: seq<Thread>, idle: nat): (r: seq<Thread>)
    requires ValidConfig(cfg)
    requires forall i :: 0 <= i < |threads| ==> Prioritizable(threads[i])
    ensures |r| == |threads|
    ensures forall i :: 0 <= i < |r| ==>
              r[i] == if i == idle then threads[i] else Reprioritize(cfg, threads[i])
  {
    seq(|threads|, i requires 0 <= i < |threads| =>
      if i == idle then threads[i] else Reprioritize(cfg, threads[i]))
  }

  /** The scheduler's part of a tick, once `ticks` has advanced: the
      running thread is charged, once a second the load average and every
      `recent_cpu` are recomputed, and every fourth tick the priorities are. */
  function Aged(cfg: Config, s: Sched, current: nat, idle: nat, readySize: int): (r: Sched)
    requires ValidConfig(cfg) && CanAge(s, current, idle)
    requires 0 <= readySize < MAX_READY
    ensures r.ticks == s.ticks && |r.threads| == |s.threads|
    ensures 0 <= r.loadAvg <= LOAD_AVG_MAX
  {
    var accrued := Accrue(s.threads, current, idle);
    var second := s.ticks % cfg.timerFreq == 0;
    var loadAvg :=
      if second then NextLoadAvg(s.loadAvg, ReadyThreads(readySize, s.threads, current, idle))
      else s.loadAvg;
    var decayed := if second then DecayAll(accrued, loadAvg) else accrued;
    var threads := if s.ticks % 4 == 0 then ReprioritizeAll(cfg, decayed, idle) else decayed;
    Sched(s.ticks, loadAvg, threads)
  }

  /** `timer_interrupt`: the tick counter advances; with aging or the
      multilevel feedback queue scheduler on (`aging`), the scheduler's
      per-tick updates follow. */
  function Interrupt(cfg: Config, s: Sched, current: nat, idle: nat, readySize: int, aging: bool): (r: Sched)
    requires ValidConfig(cfg) && CanTick(s, current, idle)
    requires 0 <= readySize < MAX_READY
    ensures |r.threads| == |s.threads|
    ensures 0 <= r.loadAvg <= LOAD_AVG_MAX
  {
    var ticked := s.(ticks := s.ticks + 1);
    if aging then Aged(cfg, ticked, current, idle, readySize) else ticked
  }

  // ---------------------------------------------------------------------
  // Properties of the tick interrupt

  /** Every interrupt advances `ticks` by exactly one, so `timer_elapsed` of
      any earlier reading grows by one. */
  lemma InterruptAdvancesTicks(cfg: Config, s: Sched, current: nat, idle: nat, readySize: int, aging: bool, start: int)
    requires ValidConfig(cfg) && CanTick(s, current, idle) && 0 <= readySize < MAX_READY
    ensures Interrupt(cfg, s, current, idle, readySize, aging).ticks == s.ticks + 1
    ensures Elapsed(Interrupt(cfg, s, current, idle, readySize, aging), start) == Elapsed(s, start) + 1
  {
  }

  /** With both flags off, nothing but `ticks` changes. */
  lemma InterruptWithoutAging(cfg: Config, s: Sched, current: nat, idle: nat, readySize: int)
    requires ValidConfig(cfg) && CanTick(s, current, idle) && 0 <= readySize < MAX_READY
    ensures Interrupt(cfg, s, current, idle, readySize, false) == Sched(s.ticks + 1, s.loadAvg, s.threads)
  {
  }

  /** On a tick that is not a whole second, the running thread is charged
      exactly `F` (one tick) unless it is the idle thread, and no other
      thread's `recent_cpu` changes; the load average stays as it was. */
  lemma RunningThreadCharged(cfg: Config, s: Sched, current: nat, idle: nat, readySize: int, i: nat)
    requires ValidConfig(cfg) && CanTick(s, current, idle) && 0 <= readySize < MAX_READY
    requires (s.ticks + 1) % cfg.timerFreq != 0 && i < |s.threads|
    ensures var r := Interrupt(cfg, s, current, idle, readySize, true);
            && r.loadAvg == s.loadAvg
            && r.threads[i].recentCpu ==
                 if i == current && current != idle then s.threads[i].recentCpu + F
                 else s.threads[i].recentCpu
  {
  }

  /** Once a second the load average is updated from the ready count, which
      counts the running thread iff it is not idle and is running; it stays
      in `[0, R * F]` when the ready count is at most `R` and it was there
      before. */
  lemma LoadAvgOncePerSecond(cfg: Config, s: Sched, current: nat, idle: nat, readySize: int, bound: int)
    requires ValidConfig(cfg) && CanTick(s, current, idle) && 0 <= readySize < MAX_READY
    requires (s.ticks + 1) % cfg.timerFreq == 0
    requires readySize + 1 <= bound <= MAX_READY && s.loadAvg <= bound * F
    ensures var r := Interrupt(cfg, s, current, idle, readySize, true);
            && r.loadAvg == NextLoadAvg(s.loadAvg, ReadyThreads(readySize, s.threads, current, idle))
            && 0 <= r.loadAvg <= bound * F
  {
    LoadAvgStaysInRange(s.loadAvg, ReadyThreads(readySize, s.threads, current, idle), bound);
  }

  /** Once a second every thread's `recent_cpu`, the idle thread's too, is
      decayed with the load average just computed, after this tick's charge;
      when that load average is 0, it becomes exactly `nice * F`. */
  lemma DecayOncePerSecond(cfg: Config, s: Sched, current: nat, idle: nat, readySize: int, i: nat)
    requires ValidConfig(cfg) && CanTick(s, current, idle) && 0 <= readySize < MAX_READY
    requires (s.ticks + 1) % cfg.timerFreq == 0 && i < |s.threads|
    ensures var r := Interrupt(cfg, s, current, idle, readySize, true);
            var charged := Accrue(s.threads, current, idle)[i].recentCpu;
            && r.threads[i].recentCpu == DecayedRecentCpu(charged, s.threads[i].nice, r.loadAvg)
            && (r.loadAvg == 0 ==> r.threads[i].recentCpu == s.threads[i].nice * F)
  {
    var r := Interrupt(cfg, s, current, idle, readySize, true);
    var charged := Accrue(s.threads, current, idle)[i].recentCpu;
    if r.loadAvg == 0 {
      DecayAtZeroLoad(charged, s.threads[i].nice);
    }
  }

  /** Every fourth tick every thread but the idle thread gets the priority
      the formula gives for its (updated) `recent_cpu` and `nice`, within
      `[PRI_MIN, PRI_MAX]`; the idle thread's priority never changes, and on
      other ticks no priority changes. */
  lemma PrioritiesEveryFourthTick(cfg: Config, s: Sched, current: nat, idle: nat, readySize: int, i: nat)
    requires ValidConfig(cfg) && CanTick(s, current, idle) && 0 <= readySize < MAX_READY
    requires i < |s.threads|
    ensures var r := Interrupt(cfg, s, current, idle, readySize, true);
            && Prioritizable(r.threads[i])
            && ((s.ticks + 1) % 4 == 0 && i != idle ==>
                  && r.threads[i].priority == Priority(cfg, r.threads[i].recentCpu, r.threads[i].nice)
                  && cfg.priMin <= r.threads[i].priority <= cfg.priMax)
            && ((s.ticks + 1) % 4 != 0 || i == idle ==> r.threads[i].priority == s.threads[i].priority)
  {
  }

  /** The handler's own MLFQS updates never write a thread's `nice` or status. */
  lemma InterruptKeepsNiceAndStatus(cfg: Config, s: Sched, current: nat, idle: nat, readySize: int, aging: bool, i: nat)
    requires ValidConfig(cfg) && CanTick(s, current, idle) && 0 <= readySize < MAX_READY
    requires i < |s.threads|
    ensures var r := Interrupt(cfg, s, current, idle, readySize, aging);
            r.threads[i].nice == s.threads[i].nice && r.threads[i].status == s.threads[i].status
  {
  }

  /** Every `nice` value is in its range. */
  predicate NicesInRange(threads: seq<Thread>)
  {
    forall i :: 0 <= i < |threads| ==> NiceInRange(threads[i].nice)
  }

  /** The interrupt keeps every `nice` value in its range. */
  lemma InterruptKeepsNicesInRange(cfg: Config, s: Sched, current: nat, idle: nat, readySize: int, aging: bool)
    requires ValidConfig(cfg) && CanTick(s, current, idle) && 0 <= readySize < MAX_READY
    ensures NicesInRange(Interrupt(cfg, s, current, idle, readySize, aging).threads)
  {
    forall i | 0 <= i < |s.threads| {
      InterruptKeepsNiceAndStatus(cfg, s, current, idle, readySize, aging, i);
    }
  }

  /** The priorities of the usual kernel build after an interrupt on tick 4
      with a running thread that has used no CPU yet: it is charged one tick
      and gets priority `63 - round(1/4)`, which is 63. */
  lemma InterruptExample()
    ensures var s := Sched(3, 0, [Thread(0, 0, 31, Running), Thread(0, 0, 0, Ready)]);
            Interrupt(PINTOS, s, 0, 1, 0, true) ==
              Sched(4, 0, [Thread(F, 0, 63, Running), Thread(0, 0, 0, Ready)])
  {
    var s := Sched(3, 0, [Thread(0, 0, 31, Running), Thread(0, 0, 0, Ready)]);
    var accrued := [Thread(F, 0, 31, Running), Thread(0, 0, 0, Ready)];
    assert Accrue(s.threads, 0, 1) == accrued;
    assert Priority(PINTOS, F, 0) == 63 by {
      QuotUnique(F / 4, F, 4);
      QuotUnique(63, 63 * F - F / 4 + F / 2, F);
    }
    var threads := ReprioritizeAll(PINTOS, accrued, 1);
    assert threads == [Thread(F, 0, 63, Running), Thread(0, 0, 0, Ready)];
  }

  // ---------------------------------------------------------------------
  // The timer's mutable state

  class Scheduler {
    const cfg: Config
    var ticks: int
    var loadAvg: int
    /** `all_list`. */
    const threads: array<Thread>

    predicate Valid()
      reads this, threads
    {
      && ValidConfig(cfg)
      && 0 <= ticks <= INT64_MAX
      && 0 <= loadAvg <= LOAD_AVG_MAX
      && NicesInRange(threads[..])
    }

    function State(): (s: Sched)
      reads this, threads
    {
      Sched(ticks, loadAvg, threads[..])
    }

    /** The state at boot: no ticks yet and a load average of 0. */
    constructor (cfg: Config, threads: array<Thread>)
      requires ValidConfig(cfg)
      requires NicesInRange(threads[..])
      ensures Valid()
      ensures this.cfg == cfg && this.threads == threads
      ensures ticks == 0 && loadAvg == 0
    {
      this.cfg := cfg;
      this.threads := threads;
      ticks := 0;
      loadAvg := 0;
    }

    /** `timer_interrupt`. The result is the request to yield on return from
        the interrupt. The bound `CanTick` asks of every thread's
        `recent_cpu` is not re-established by a tick, so a caller chaining
        ticks must show it again each time. */
    method Tick(current: nat, idle: nat, readySize: int, aging: bool) returns (yieldOnReturn: bool)
      requires Valid() && CanTick(State(), current, idle)
      requires 0 <= readySize < MAX_READY
      modifies this, threads
      ensures Valid()
      ensures State() == Interrupt(cfg, old(State()), current, idle, readySize, aging)
      ensures yieldOnReturn <==> aging && ticks % 4 == 0
    {
      ghost var s := State();
      ticks := ticks + 1;
      yieldOnReturn := false;
      if aging {
        yieldOnReturn := AgeThreads(current, idle, readySize);
      }
      InterruptKeepsNicesInRange(cfg, s, current, idle, readySize, aging);
    }

    /** The aging part of `timer_interrupt`, after `ticks` has advanced. The
        result says whether the priorities were recomputed. */
    method AgeThreads(current: nat, idle: nat, readySize: int) returns (reprioritized: bool)
      requires ValidConfig(cfg) && CanAge(State(), current, idle)
      requires 0 <= readySize < MAX_READY
      modifies `loadAvg, threads
      ensures State() == Aged(cfg, old(State()), current, idle, readySize)
      ensures reprioritized <==> ticks % 4 == 0
    {
      ChargeRunningThread(current, idle);
      if ticks % cfg.timerFreq == 0 {
        var readyThreads := readySize;
        if current != idle && threads[current].status == Running {
          readyThreads := readyThreads + 1;
        }
        UpdateLoadAvg(readyThreads);
        DecayEveryThread();
      }
      reprioritized := false;
      if ticks % 4 == 0 {
        RecomputePriorities(idle);
        reprioritized := true;
      }
    }

    /** The running thread's `recent_cpu` grows by one tick, unless it is
        the idle thread. */
    method ChargeRunningThread(current: nat, idle: nat)
      requires current < threads.Length && Bounded(threads[current])
      modifies threads
      ensures threads[..] == Accrue(old(threads[..]), current, idle)
    {
      if current != idle {
        var t := threads[current];
        threads[current] := t.(recentCpu := AddFpAndInt(t.recentCpu, 1));
      }
    }

    /** The once-a-second update of `load_avg` from the ready count. */
    method UpdateLoadAvg(readyThreads: int)
      requires 0 <= loadAvg <= LOAD_AVG_MAX && 0 <= readyThreads <= MAX_READY
      modifies `loadAvg
      ensures loadAvg == NextLoadAvg(old(loadAvg), readyThreads)
    {
      loadAvg := AddFpAndFp(MulFpByFp(LoadAvgDecayCoefficient(), loadAvg),
                            MulFpByInt(LoadAvgGainCoefficient(), readyThreads));
    }

    /** The once-a-second loop over `all_list` that decays every thread's
        `recent_cpu`, the idle thread's included. */
    method DecayEveryThread()
      requires 0 <= loadAvg <= LOAD_AVG_MAX
      requires forall i :: 0 <= i < threads.Length ==> Decayable(threads[i])
      modifies threads
      ensures threads[..] == DecayAll(old(threads[..]), loadAvg)
    {
      ghost var before := threads[..];
      var i := 0;
      while i < threads.Length
        invariant 0 <= i <= threads.Length
        invariant forall j :: 0 <= j < i ==> threads[j] == DecayThread(before[j], loadAvg)
        invariant forall j :: i <= j < threads.Length ==> threads[j] == before[j]
      {
        var t := threads[i];
        threads[i] := t.(recentCpu := DecayedRecentCpu(t.recentCpu, t.nice, loadAvg));
        i := i + 1;
      }
    }

    /** The every-fourth-tick loop over `all_list` that recomputes every
        priority but the idle thread's. */
    method RecomputePriorities(idle: nat)
      requires ValidConfig(cfg)
      requires forall i :: 0 <= i < threads.Length ==> Prioritizable(threads[i])
      modifies threads
      ensures threads[..] == ReprioritizeAll(cfg, old(threads[..]), idle)
    {
      ghost var before := threads[..];
      var i := 0;
      while i < threads.Length
        invariant 0 <= i <= threads.Length
        invariant forall j :: 0 <= j < i ==>
                    threads[j] == if j == idle then before[j] else Reprioritize(cfg, before[j])
        invariant forall j :: i <= j < threads.Length ==> threads[j] == before[j]
      {
        if i != idle {
          var t := threads[i];
          threads[i] := t.(priority := Priority(cfg, t.recentCpu, t.nice));
        }
        i := i + 1;
      }
    }
  }

  /** `loops_per_tick`, the timer driver's estimate of how many iterations
      of the busy-wait loop take one timer tick. */
  class DelayLoop {
    /** An `unsigned`. */
    var loopsPerTick: nat

    predicate Valid()
      reads this
    {
      loopsPerTick < UINT32_LIMIT
    }

    /** Before calibration the count is 0. */
    constructor ()
      ensures Valid() && loopsPerTick == 0
    {
      loopsPerTick := 0;
    }

    /** `timer_calibrate`, where `tooMany` holds the loop counts for which
        `too_many_loops` answers true. On success `loops_per_tick` is the
        calibrated count; when the doubling wraps to 0 the kernel's
        assertion fails, and that is the `false` result. The ghost
        `doubling` and `refining` are the loop counts `too_many_loops` was
        asked about in each phase, in order. */
    method Calibrate(tooMany: set<nat>) returns (calibrated: bool, ghost doubling: seq<nat>, ghost refining: seq<nat>)
      requires Valid()
      modifies `loopsPerTick
      ensures Valid()
      ensures calibrated <==> CalibrationOutcome(tooMany).Calibrated?
      ensures calibrated ==> loopsPerTick == CalibrationOutcome(tooMany).loopsPerTick
      ensures !calibrated ==> loopsPerTick == 0
      ensures doubling == DoublingProbes(tooMany, 10)
      ensures calibrated ==>
        HighBit(tooMany, 10).Some? && refining == RefinementProbes(HighBit(tooMany, 10).value)
      ensures !calibrated ==> refining == []
    {
      ghost var k;
      calibrated, k, doubling := FindHighBit(tooMany);
      refining := [];
      if calibrated {
        refining := RefineLowBits(tooMany, k);
        CalibratedRange(tooMany, k, loopsPerTick);
      }
    }

    /** The doubling phase of `timer_calibrate`: the largest power of two
        `loops_per_tick >= 2^10` whose double is not too many loops. */
    method FindHighBit(tooMany: set<nat>) returns (found: bool, ghost k: nat, ghost probes: seq<nat>)
      modifies `loopsPerTick
      ensures found <==> HighBit(tooMany, 10).Some?
      ensures found ==> HighBit(tooMany, 10) == Some(k) && loopsPerTick == Pow2(k)
      ensures !found ==> loopsPerTick == 0
      ensures probes == DoublingProbes(tooMany, 10)
    {
      loopsPerTick := 1024;
      k := 10;
      probes := [];
      DoublingInvariantStart(tooMany);
      while ShiftLeft(loopsPerTick) !in tooMany
        invariant DoublingInvariant(tooMany, k, loopsPerTick, probes)
        decreases 31 - k
      {
        DoublingInvariantStep(tooMany, k, loopsPerTick, probes, ShiftLeft(loopsPerTick));
        probes := probes + [ShiftLeft(loopsPerTick)];
        loopsPerTick := ShiftLeft(loopsPerTick);
        if loopsPerTick == 0 {
          found := false;
          return;
        }
        k := k + 1;
      }
      DoublingInvariantEnd(tooMany, k, loopsPerTick, probes);
      probes := probes + [ShiftLeft(loopsPerTick)];
      found := true;
    }

    /** The refinement phase of `timer_calibrate`, from `loops_per_tick =
        high_bit = 2^k`: each test bit from `high_bit >> 1` down to, but not
        including, `high_bit >> 10`. */
    method RefineLowBits(tooMany: set<nat>, ghost k: nat) returns (ghost probes: seq<nat>)
      requires 10 <= k <= 31 && loopsPerTick == Pow2(k)
      modifies `loopsPerTick
      ensures loopsPerTick == RefinedLoops(tooMany, k)
      ensures probes == RefinementProbes(k)
    {
      var highBit := loopsPerTick;
      var testBit := highBit / 2;
      ghost var e: nat := k - 1;
      probes := [];
      RefineInvariantStart(tooMany, k);
      while testBit != highBit / 1024
        invariant highBit == Pow2(k) && RefineInvariant(tooMany, k, loopsPerTick, testBit, e, probes)
        decreases e
      {
        var probe := Or(highBit, testBit);
        ghost var before := loopsPerTick;
        if probe !in tooMany {
          loopsPerTick := Or(loopsPerTick, testBit);
        }
        RefineInvariantStep(tooMany, k, before, testBit, e, probes, probe, loopsPerTick);
        probes := probes + [probe];
        testBit := testBit / 2;
        e := e - 1;
      }
      RefineInvariantEnd(tooMany, k, loopsPerTick, testBit, e, probes);
    }
  }

  // ---------------------------------------------------------------------
  // Sleeping and busy-waiting for real time

  /** What a request to wait `num / denom` seconds turns into: a sleep of a
      number of ticks, a busy-wait of a number of loops, or a failed kernel
      assertion. */
  datatype Wait = TimerSleep(ticks: int) | Spin(loops: int) | DelayAssertFails

  /** `num * TIMER_FREQ / denom`, the request in whole ticks (C division). */
  function SleepTicks(cfg: Config, num: int, denom: int): (t: int)
    requires denom != 0 && IsInt64(num * cfg.timerFreq) && IsInt64(Quot(num * cfg.timerFreq, denom))
    ensures IsTruncQuot(t, num * cfg.timerFreq, denom)
  {
    Quot(num * cfg.timerFreq, denom)
  }

  /** The busy-wait count of `real_time_delay`: `loops_per_tick * num / 1000
      * TIMER_FREQ / (denom / 1000)`, all in 64-bit C arithmetic. */
  function DelayLoops(cfg: Config, loopsPerTick: nat, num: int, denom: int): (loops: int)
    requires ValidConfig(cfg) && Abs(denom) >= 1000
    requires DelayFits(cfg, loopsPerTick, num)
  {
    Quot(Quot(loopsPerTick * num, 1000) * cfg.timerFreq, Quot(denom, 1000))
  }

  /** The 64-bit intermediates of `DelayLoops` do not overflow. */
  predicate DelayFits(cfg: Config, loopsPerTick: nat, num: int)
  {
    IsInt64(loopsPerTick * num) && IsInt64(Quot(loopsPerTick * num, 1000) * cfg.timerFreq)
  }

  /** `real_time_delay`: `denom` must be a multiple of 1000. */
  function RealTimeDelay(cfg: Config, loopsPerTick: nat, num: int, denom: int): (w: Wait)
    requires ValidConfig(cfg) && denom != 0
    requires denom % 1000 == 0 ==> DelayFits(cfg, loopsPerTick, num)
    ensures !w.TimerSleep?
    ensures w == DelayAssertFails <==> denom % 1000 != 0
    ensures w.Spin? ==> w.loops == DelayLoops(cfg, loopsPerTick, num, denom)
  {
    if denom % 1000 != 0 then DelayAssertFails
    else
      assert Abs(denom) >= 1000;
      Spin(DelayLoops(cfg, loopsPerTick, num, denom))
  }

  /** `real_time_sleep`: sleep on the timer when the request is at least one
      whole tick, busy-wait otherwise. */
  function RealTimeSleep(cfg: Config, loopsPerTick: nat, num: int, denom: int): (w: Wait)
    requires ValidConfig(cfg) && denom != 0
    requires IsInt64(num * cfg.timerFreq) && IsInt64(Quot(num * cfg.timerFreq, denom))
    requires Quot(num * cfg.timerFreq, denom) <= 0 && denom % 1000 == 0 ==> DelayFits(cfg, loopsPerTick, num)
    ensures w.TimerSleep? <==> SleepTicks(cfg, num, denom) > 0
    ensures w.TimerSleep? ==> w.ticks == SleepTicks(cfg, num, denom)
    ensures !w.TimerSleep? ==> w == RealTimeDelay(cfg, loopsPerTick, num, denom)
  {
    var ticks := SleepTicks(cfg, num, denom);
    if ticks > 0 then TimerSleep(ticks) else RealTimeDelay(cfg, loopsPerTick, num, denom)
  }

  /** For a positive request, `real_time_sleep` sleeps on the timer exactly
      when the request lasts at least one tick, `num * TIMER_FREQ >= denom`,
      and then for the whole number of ticks it lasts, rounded down. */
  lemma {:induction false} SleepIffAtLeastOneTick(cfg: Config, loopsPerTick: nat, num: int, denom: int)
    requires ValidConfig(cfg) && num >= 0 && denom > 0
    requires IsInt64(num * cfg.timerFreq)
    requires Quot(num * cfg.timerFreq, denom) <= 0 && denom % 1000 == 0 ==> DelayFits(cfg, loopsPerTick, num)
    ensures IsInt64(Quot(num * cfg.timerFreq, denom))
    ensures RealTimeSleep(cfg, loopsPerTick, num, denom).TimerSleep? <==> num * cfg.timerFreq >= denom
    ensures var t := SleepTicks(cfg, num, denom);
            t * denom <= num * cfg.timerFreq < (t + 1) * denom
  {
    var a := num * cfg.timerFreq;
    MulNonneg(num, cfg.timerFreq);
    var t := Quot(a, denom);
    MulNonneg(t, denom);
    if t < 0 {
      MultipleAtLeast(t, denom);
      assert false;
    }
    assert t <= a by {
      if t > a {
        MulMonotone(a + 1, 1, t, denom);
        assert false;
      }
    }
    if t == 0 {
      assert a < denom;
    } else {
      MulMonotone(1, denom, t, denom);
    }
  }

  /** The busy-wait of a delay with `num >= 0` seconds and positive `denom`
      never exceeds the requested time: `loops * denom <= loops_per_tick *
      num * TIMER_FREQ`. */
  lemma {:induction false} DelayNeverOverestimates(cfg: Config, loopsPerTick: nat, num: int, denom: int)
    requires ValidConfig(cfg) && num >= 0 && denom >= 1000 && denom % 1000 == 0
    requires DelayFits(cfg, loopsPerTick, num)
    ensures var loops := DelayLoops(cfg, loopsPerTick, num, denom);
            0 <= loops && loops * denom <= loopsPerTick * num * cfg.timerFreq
  {
    var lpt := loopsPerTick;
    var p := lpt * num;
    MulNonneg(lpt, num);
    var a := Quot(p, 1000);
    var b := a * cfg.timerFreq;
    MulNonneg(a, cfg.timerFreq);
    var d := Quot(denom, 1000);
    QuotUnique(denom / 1000, denom, 1000);
    assert d * 1000 == denom;
    var loops := Quot(b, d);
    MulNonneg(loops, d);
    if loops < 0 {
      MultipleAtLeast(loops, d);
      assert false;
    }
    assert loops * d <= b;
    assert loops * denom == loops * d * 1000;
    MulMonotone(loops * d, 1000, b, 1000);
    assert b * 1000 == a * 1000 * cfg.timerFreq;
    MulMonotone(a * 1000, cfg.timerFreq, p, cfg.timerFreq);
  }

  /** Any `loops_per_tick` and any delay of at most `2^31` units fit the
      64-bit arithmetic of `real_time_delay`. */
  lemma {:induction false} DelayFitsForModestRequests(cfg: Config, loopsPerTick: nat, num: int)
    requires ValidConfig(cfg) && loopsPerTick < UINT32_LIMIT && Abs(num) <= 0x8000_0000
    ensures DelayFits(cfg, loopsPerTick, num)
  {
    var lpt := loopsPerTick;
    var p := lpt * num;
    MulMonotone(lpt, Abs(num), 0xFFFF_FFFF, 0x8000_0000);
    AbsMul(lpt, num);
    var a := Quot(p, 1000);
    assert Abs(a) * 1000 <= Abs(p) by {
      AbsMul(a, 1000);
    }
    MulMonotone(Abs(a), cfg.timerFreq, Abs(p) / 1000 + 1, 1000);
    AbsMul(a, cfg.timerFreq);
  }

  /** `timer_msleep(10)` in the usual build sleeps one tick; `timer_msleep(5)`
      is half a tick and busy-waits `loops_per_tick / 2` loops (rounded). */
  lemma MsleepExamples(loopsPerTick: nat)
    requires loopsPerTick < UINT32_LIMIT
    ensures RealTimeSleep(PINTOS, loopsPerTick, 10, 1000) == TimerSleep(1)
    ensures RealTimeSleep(PINTOS, loopsPerTick, 5, 1000) ==
              Spin(Quot(loopsPerTick * 5, 1000) * 100)
  {
    QuotUnique(1, 1000, 1000);
    QuotUnique(0, 500, 1000);
    DelayFitsForModestRequests(PINTOS, loopsPerTick, 10);
    DelayFitsForModestRequests(PINTOS, loopsPerTick, 5);
    QuotUnique(1, 1000, 1000);
    var a := Quot(loopsPerTick * 5, 1000) * 100;
    QuotUnique(a, a, 1);
  }

  /** A ten-minute `timer_nsleep` with a fast CPU: the busy-wait product
      `loops_per_tick * num` would overflow 64 bits, but the request is
      60000 whole ticks, so the call sleeps and never forms that product. */
  lemma LongSleepExample()
    ensures !DelayFits(PINTOS, 0x100_0000, 600_000_000_000)
    ensures RealTimeSleep(PINTOS, 0x100_0000, 600_000_000_000, 1_000_000_000) == TimerSleep(60000)
  {
    QuotUnique(60000, 600_000_000_000 * 100, 1_000_000_000);
  }

  /** `busy_wait`: counts `loops` down to zero, so it runs `loops` iterations
      when that is positive and none otherwise. The post-decrement after the
      last test must not overflow, which excludes `INT64_MIN`. */
  method BusyWait(loops: int) returns (iterations: nat)
    requires INT64_MIN < loops <= INT64_MAX
    ensures iterations == if loops > 0 then loops else 0
  {
    var remaining := loops;
    iterations := 0;
    var more := remaining > 0;
    remaining := remaining - 1;
    while more
      invariant more ==> remaining >= 0
      invariant iterations + remaining + 1 == loops || (!more && loops <= 0 && iterations == 0)
      invariant more || iterations == (if loops > 0 then loops else 0)
      decreases remaining + 1
    {
      iterations := iterations + 1;
      more := remaining > 0;
      remaining := remaining - 1;
    }
  }
}
