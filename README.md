# Pintos timer, fixed-point scheduler arithmetic and small system calls, in Dafny

This project models three sequential pieces of a Pintos kernel and proves
properties of them:

- **The 17.14 fixed-point library** (`FixedPoint`, on top of `CInt`). A real
  value `v` is stored as the 32-bit integer `v * F`, with `F = 2^14`. Each of the
  eleven operations is its C expression evaluated on unbounded integers. C's
  truncating `/` is written out as `CInt.Quot`, because Dafny's `/` is
  Euclidean. The absence of signed overflow, which C leaves undefined, is each
  operation's precondition. `mul_fp_by_fp` and `div_fp_by_fp` widen to 64 bits,
  and lemmas show that the widened intermediates fit.
- **The timer driver** (`Mlfqs`, `Calibration`, `Timer`):
  - `timer_interrupt` is the method `Timer.Scheduler.Tick`. It acts on a class
    holding `ticks`, `load_avg` and `all_list`, the last one as an array of
    thread records. It is proved equal to the function `Timer.Interrupt`, and
    lemmas about `Timer.Interrupt` state what each tick does.
  - `Mlfqs` holds the load-average, decay and priority formulas, in the order
    the handler calls the fixed-point operations.
  - `timer_calibrate` is the method `Timer.DelayLoop.Calibrate`. It is
    specified by `Calibration.CalibrationOutcome`, whose properties are lemmas.
    Here `too_many_loops` is a set `tooMany` of loop counts for which it answers
    true. No count is ever probed twice: the doubling probes are distinct
    powers of two (or the wrapped 0), and each refinement probe
    `2^k + 2^e` with `e < k` lies strictly between `2^k` and `2^(k+1)`. So
    every answer sequence the real oracle can give is some such set, and the
    results hold for any behaviour of it.
  - `real_time_sleep` and `real_time_delay` return what they would do, as a
    `Wait` value: sleep some ticks, spin some loops, or fail the kernel
    assertion. `busy_wait` counts its iterations.
- **Parts of the system-call layer** (`Syscall`):
  - `fibonacci`, checked against the Fibonacci numbers;
  - `sum_of_four_int`;
  - the per-thread descriptor table kept by `open`, `close` and `exit`, as a
    class with a 128-slot array;
  - the way `read` and `write` classify a descriptor.

`TIMER_FREQ`, `PRI_MIN` and `PRI_MAX` come from headers outside the model.
They are a `Config` parameter with `19 <= TIMER_FREQ <= 1000`, and
`Mlfqs.PINTOS = (100, 0, 63)` is used for the concrete examples.

Points of the code worth knowing, which the model follows:

- The once-a-second decay of `recent_cpu` (timer.c:228-240) runs over every
  thread in `all_list`, the idle thread included. Only the priority pass
  (timer.c:244-266) skips the idle thread.
- The comment at timer.c:61 speaks of refining the next 8 bits, but the
  refinement loop tests nine, from `high_bit >> 1` down to `high_bit >> 9`,
  because it stops only when `test_bit` reaches `high_bit >> 10`.
- Each refinement probe is `high_bit | test_bit`, not the value built so far.
  Every bit is therefore kept or dropped independently of the others (see
  `Calibration.CalibratedTestBit`).
- `mul_fp_by_fp(to_fp(50000), to_fp(50000))` is not representable: its
  64-bit intermediate fits, but the result does not fit in 32 bits
  (`FixedPoint.LargeProductOverflowsResult`).

## Model

Some definitions only compute, and their properties are the lemmas in the
rows that cite the same lines: `FixedPoint.ConvIntToFp` (`RoundTrip`,
`ConvIntToFpOfOne`), `AddFpAndFp` and `SubFpFromFp` (`AddSubInverse`),
`AddFpAndInt` and `SubIntFromFp` (`MixedOpsConvertFirst`), `MulFpByInt`
(`MulByIntIsMulByConverted`, `MulByOne`), `Timer.Elapsed`
(`InterruptAdvancesTicks`), `Timer.DelayLoops` (`RealTimeDelay`,
`DelayNeverOverestimates`), `Calibration.Or` (`OrBits`, `RefineProbe`),
`Calibration.Refine` and `RefinedLoops` (`RefineKeepsAcceptedBits`,
`Calibrated*`), `Calibration.CalibrationOutcome` (`CalibrationWraps`,
`Calibrated*`) and `Syscall.FibSteps` (`FibStepsIsFib`).

| member | source | states |
|---|---|---|
| `CInt.Quot` | src/threads/fixed_point.c:44-46 | C's `/`: the quotient rounds toward zero, `q * b` has the sign of `a`, does not exceed it in magnitude, and is less than `Abs(b)` from it |
| `CInt.UnsignedToInt` | src/userprog/syscall.c:180 | an `unsigned` stored in an `int` is unchanged up to `INT32_MAX` and wraps by `2^32` above it |
| `FixedPoint.AddSubInverse` | src/threads/fixed_point.c:16-22 | `sub_fp_from_fp(add_fp_and_fp(x, y), y) == x`, and addition commutes |
| `FixedPoint.MulByIntIsMulByConverted` | src/threads/fixed_point.c:32-38 | `mul_fp_by_int(x, n)` equals `mul_fp_by_fp(x, to_fp(n))`: the scaling and the division by `F` cancel exactly |
| `FixedPoint.ConvIntToFpOfOne` | src/threads/fixed_point.c:3-5 | `conv_int_to_fp(1) == 16384 == F`, the scale of `fixed_point.h`, and 0 maps to 0 |
| `FixedPoint.ConvFpToIntRndZero` | src/threads/fixed_point.c:7-9 | `r * F` has the sign of `x`, never exceeds it in magnitude, and is less than `F` away from it |
| `FixedPoint.ConvFpToIntRndNearest` | src/threads/fixed_point.c:11-14 | the rounded value is within half a unit, with ties away from zero (the bounds are half-open on the side of zero) |
| `FixedPoint.RoundTrip` | src/threads/fixed_point.c:3-14 | for every `n` in `[-131072, 131071]`, truncation gives `n` back, and so does rounding to nearest except at -131072, where `x - F/2` overflows |
| `FixedPoint.RoundNearestTies` | src/threads/fixed_point.c:11-14 | 8192 rounds to 1 and -8192 to -1; 8191 and -8191 round to 0 |
| `FixedPoint.RoundNearestError` | src/threads/fixed_point.c:11-14 | twice the distance between `x` and `round(x) * F` is at most `F` |
| `FixedPoint.MixedOpsConvertFirst` | src/threads/fixed_point.c:16-30 | the mixed add and subtract equal the fixed-point ones after converting `n`; adding 0 is the identity |
| `FixedPoint.MulFpByFp` | src/threads/fixed_point.c:32-34 | the result is the truncated quotient of the exact product by `F` |
| `FixedPoint.MulFpByFpWideProductFits` | src/threads/fixed_point.c:32-34 | for 32-bit operands the 64-bit product `x * y` cannot overflow |
| `FixedPoint.LargeProductOverflowsResult` | src/threads/fixed_point.c:32-34 | `to_fp(50000) * to_fp(50000)` fits in 64 bits, but the product divided by `F` does not fit in 32 |
| `FixedPoint.MulByOne` | src/threads/fixed_point.c:32-38 | multiplying by `to_fp(1)`, or by the integer 1, is the identity |
| `FixedPoint.DivFpByFp` | src/threads/fixed_point.c:40-42 | the result is the truncated quotient of `x * F` by `y` |
| `FixedPoint.DivFpByFpWideProductFits` | src/threads/fixed_point.c:40-42 | the 64-bit intermediate `x * F` cannot overflow |
| `FixedPoint.DivByOne` | src/threads/fixed_point.c:40-42 | dividing by `to_fp(1)` is the identity |
| `FixedPoint.OneDividedByOne` | src/threads/fixed_point.c:40-42 | `div_fp_by_fp(to_fp(1), to_fp(1)) == 16384` |
| `FixedPoint.DivFpByInt` | src/threads/fixed_point.c:44-46 | the result is the quotient of `x` by `n`, truncated toward zero |
| `Mlfqs.LoadAvgDecayCoefficient` | src/devices/timer.c:207-210 | `div_fp_by_fp(to_fp(59), to_fp(60))` is 16110 |
| `Mlfqs.LoadAvgGainCoefficient` | src/devices/timer.c:208-211 | `div_fp_by_fp(to_fp(1), to_fp(60))` is 273 |
| `Mlfqs.NextLoadAvg` | src/devices/timer.c:212 | the new load average stays in `[0, to_fp(32768)]` |
| `Mlfqs.LoadAvgStaysInRange` | src/devices/timer.c:206-216 | if the ready count is at most `R` and `0 <= load_avg <= to_fp(R)`, the new value is in `[0, to_fp(R)]`, and it is 0 when `R == 0` |
| `Mlfqs.NextLoadAvgMonotone` | src/devices/timer.c:212 | a larger old load average or a larger ready count never gives a smaller new one |
| `Mlfqs.LoadAvgAfter` | src/devices/timer.c:212 | the load average after some seconds from boot stays in range |
| `Mlfqs.NextLoadAvgRises` | src/devices/timer.c:212 | while `274 * load_avg <= (273 * R - 1) * F`, an update strictly raises the load average; the truncated coefficients 16110 and 273 make the real limit about 273/274 of `to_fp(R)` |
| `Mlfqs.LoadAvgConverges` | src/devices/timer.c:212 | with a constant ready count `R`, the load average never decreases, never exceeds `to_fp(R)`, and rises strictly while below about 273/274 of `to_fp(R)` |
| `Mlfqs.LoadAvgProgress` | src/devices/timer.c:212 | under constant load, after `n` seconds the load average is past that limit or at least `n` |
| `Mlfqs.LoadAvgReachesLimit` | src/devices/timer.c:212 | under constant load, every second after the first `to_fp(R)` finds the load average past about 273/274 of `to_fp(R)` |
| `Mlfqs.IdleSystemLoadAvgIsZero` | src/devices/timer.c:212 | with nothing ever ready, the load average stays 0 |
| `Mlfqs.DecayCoefficient` | src/devices/timer.c:231-233 | for `load_avg >= 0` the divisor `2L + F` is positive; the coefficient lies in `[0, F)` and is the truncated quotient of `2L * F` by `2L + F` |
| `Mlfqs.ScaleByFraction` | src/devices/timer.c:234 | multiplying by a coefficient in `[0, F)` keeps the sign and does not increase the magnitude |
| `Mlfqs.DecayedRecentCpu` | src/devices/timer.c:231-235 | the decayed value minus `nice * F` lies between 0 and the old `recent_cpu`, and fits in 32 bits |
| `Mlfqs.DecayAtZeroLoad` | src/devices/timer.c:231-235 | with `load_avg == 0` the coefficient is 0, and `recent_cpu` becomes exactly `nice * F` |
| `Mlfqs.RawPriority` | src/devices/timer.c:253-261 | the unclamped priority is within half a unit of `PRI_MAX*F - recent_cpu/4 - 2*nice*F` |
| `Mlfqs.Priority` | src/devices/timer.c:253-264 | the priority lies in `[PRI_MIN, PRI_MAX]`; it equals the unclamped value whenever that value is in range, is `PRI_MIN` when it is below, and `PRI_MAX` when it is above |
| `Mlfqs.PriorityMonotone` | src/devices/timer.c:253-264 | more `recent_cpu`, or a higher `nice`, never raises the priority |
| `Mlfqs.PriorityExamples` | src/devices/timer.c:253-264 | with `PRI_MAX = 63`, `(0, 0)` gives 63 and `(to_fp(80), 0)` gives 43 |
| `Timer.ReadyThreads` | src/devices/timer.c:198-202 | the count is the ready-list size plus 1 exactly when the current thread is not idle and is running |
| `Timer.Accrue` | src/devices/timer.c:191-192 | only the current thread changes, its `recent_cpu` grows by exactly `F`, and the idle thread is never charged |
| `Timer.DecayThread` | src/devices/timer.c:231-235 | the decayed thread can have its priority recomputed without overflow, and only `recent_cpu` changes |
| `Timer.DecayAll` | src/devices/timer.c:228-240 | every thread, the idle thread included, is decayed with the same load average. This is the whole-list specification `Scheduler.DecayEveryThread` is proved equal to; what the decay means is stated by `Timer.DecayOncePerSecond` and `Mlfqs.DecayedRecentCpu` |
| `Timer.Reprioritize` | src/devices/timer.c:253-265 | only the priority changes, and it is set to the clamped formula. This is the per-thread step of `ReprioritizeAll`; the properties of the formula are `Mlfqs.Priority` and `Mlfqs.PriorityMonotone` |
| `Timer.ReprioritizeAll` | src/devices/timer.c:247-266 | every thread but the idle thread is reprioritized; the idle thread is untouched. This is the whole-list specification `Scheduler.RecomputePriorities` is proved equal to; `Timer.PrioritiesEveryFourthTick` states when and with what effect it runs |
| `Timer.Aged` | src/devices/timer.c:190-268 | the scheduler's part of a tick keeps `ticks`, the thread count and the load-average range |
| `Timer.Interrupt` | src/devices/timer.c:174-271 | a tick keeps the thread count, and the load average stays in range |
| `Timer.InterruptAdvancesTicks` | src/devices/timer.c:182 | every tick increases `ticks` by exactly 1, so `timer_elapsed` of any earlier reading grows by 1 |
| `Timer.InterruptWithoutAging` | src/devices/timer.c:190 | with aging and MLFQS both off, only `ticks` changes |
| `Timer.RunningThreadCharged` | src/devices/timer.c:190-192 | on a tick that is not a whole second, the current non-idle thread's `recent_cpu` grows by exactly `F`, no other thread's changes, and `load_avg` is kept |
| `Timer.LoadAvgOncePerSecond` | src/devices/timer.c:196-216 | on a whole second, `load_avg` becomes the formula applied to the ready count and stays in `[0, to_fp(R)]` |
| `Timer.DecayOncePerSecond` | src/devices/timer.c:228-240 | on a whole second every thread, idle included, is decayed with the new `load_avg` after this tick's charge; with `load_avg == 0` its `recent_cpu` becomes `nice * F` |
| `Timer.PrioritiesEveryFourthTick` | src/devices/timer.c:243-266 | every fourth tick every non-idle thread gets the clamped formula's priority, in `[PRI_MIN, PRI_MAX]`; the idle thread's priority, and every priority on other ticks, is unchanged |
| `Timer.InterruptKeepsNiceAndStatus` | src/devices/timer.c:174-271 | the handler's own MLFQS updates never write a thread's `nice` or status |
| `Timer.InterruptKeepsNicesInRange` | src/devices/timer.c:174-271 | every `nice` stays in `[-20, 20]` across a tick |
| `Timer.InterruptExample` | src/devices/timer.c:174-268 | on tick 4 of the usual build, a running thread with no history is charged one tick and gets priority 63 |
| `Timer.Scheduler.constructor` | src/devices/timer.c:21 | at boot `ticks`, a zero-initialised static, is 0; `load_avg` starts at 0 by assumption |
| `Timer.Scheduler.Tick` | src/devices/timer.c:174-271 | the new state is `Interrupt` of the old one, and a yield is requested exactly on aging ticks divisible by 4 |
| `Timer.Scheduler.AgeThreads` | src/devices/timer.c:190-268 | after `ticks` has advanced, the state becomes `Aged` of the old one |
| `Timer.Scheduler.ChargeRunningThread` | src/devices/timer.c:191-192 | the thread array becomes `Accrue` of the old one |
| `Timer.Scheduler.UpdateLoadAvg` | src/devices/timer.c:206-216 | `load_avg` becomes `NextLoadAvg` of the old value and the ready count |
| `Timer.Scheduler.DecayEveryThread` | src/devices/timer.c:228-240 | the loop over `all_list` leaves `DecayAll` of the old threads |
| `Timer.Scheduler.RecomputePriorities` | src/devices/timer.c:244-266 | the loop over `all_list` leaves `ReprioritizeAll` of the old threads |
| `Timer.DelayLoop.constructor` | src/devices/timer.c:24-26 | `loops_per_tick` is 0 before calibration |
| `Timer.DelayLoop.Calibrate` | src/devices/timer.c:44-68 | the method succeeds exactly when `CalibrationOutcome` does, stores that outcome's `loops_per_tick` (which fits in an `unsigned`), and asks the oracle about exactly the specified loop counts |
| `Timer.DelayLoop.FindHighBit` | src/devices/timer.c:54-58 | the doubling loop stops at `2^k` with `HighBit(tooMany, 10) == Some(k)`, or reports the wrap to 0 |
| `Timer.DelayLoop.RefineLowBits` | src/devices/timer.c:60-65 | the refinement loop leaves `RefinedLoops(tooMany, k)` and probes exactly `RefinementProbes(k)` |
| `Calibration.ShiftLeft` | src/devices/timer.c:55-56 | `x << 1` on an `unsigned` doubles values below `2^31` and drops the top bit, `2^32`, from larger ones |
| `Calibration.OrBits` | src/devices/timer.c:63-64 | bit `n` of `a OR b` is set exactly when bit `n` of `a` or of `b` is |
| `Calibration.HighBit` | src/devices/timer.c:54-58 | the doubling stops at an exponent between its start and 31 |
| `Calibration.HighBitIsFirstTooSlow` | src/devices/timer.c:54-58 | the doubling stops at the first `2^e` whose double is too slow (or wraps to 0 and is too slow); every smaller double was fast enough |
| `Calibration.HighBitNoneIffNeverTooSlow` | src/devices/timer.c:54-58 | the doubling wraps exactly when no double up to `2^31`, nor the wrapped 0, is too slow |
| `Calibration.DoublingProbesAreDoubles` | src/devices/timer.c:55 | the oracle is asked about `2^(k+1), 2^(k+2), ...` in order, one probe per pass and one more than the passes made |
| `Calibration.DoublingLastProbe` | src/devices/timer.c:55 | the last probe is the one that ends the loop: the too-slow double `2^(k + n)` after `n` probes, or the wrapped 0, and a doubling that wraps makes exactly `32 - k` probes |
| `Calibration.RefineKeepsAcceptedBits` | src/devices/timer.c:60-65 | the refinement result is `high_bit` plus exactly the bits whose probe was fast enough |
| `Calibration.RefineProbesLength` | src/devices/timer.c:62 | from test bit `2^e` on, the refinement asks one probe per remaining test bit down to `2^(k-9)`, so nine in all from `high_bit >> 1` |
| `Calibration.RefineProbe` | src/devices/timer.c:62-63 | counting from test bit `2^e`, probe `i` is `high_bit` OR `2^(e - i)`, so the test bits are visited from the top down |
| `Calibration.CalibrationWraps` | src/devices/timer.c:54-58 | calibration fails exactly when every double up to `2^31` was fast enough and the wrapped 0 was also fast enough |
| `Calibration.CalibratedIsKeptBits` | src/devices/timer.c:54-65 | a calibrated value is `2^k` plus the kept test bits, where `2^k` is where the doubling stopped |
| `Calibration.CalibratedHighBit` | src/devices/timer.c:54-58 | `high_bit` is a power of two of at least 1024, hence never 0; its double is too slow, and every power of two from 2048 up to it was fast enough |
| `Calibration.CalibratedRange` | src/devices/timer.c:60-65 | the result lies in `[high_bit, 2 * high_bit)` and fits in an `unsigned` |
| `Calibration.CalibratedLowBits` | src/devices/timer.c:60-65 | bit `k` is set and every bit below `high_bit >> 9` is clear |
| `Calibration.CalibratedTestBit` | src/devices/timer.c:62-64 | each of the nine test bits is set if and only if `too_many_loops` found `high_bit` OR `test_bit` fast enough |
| `Timer.SleepTicks` | src/devices/timer.c:316 | the tick count is `num * TIMER_FREQ / denom`, truncated toward zero |
| `Timer.RealTimeDelay` | src/devices/timer.c:336-342 | the call never sleeps on the timer; the kernel assertion fails if and only if `denom % 1000 != 0`; otherwise the result busy-waits `loops_per_tick * num / 1000 * TIMER_FREQ / (denom / 1000)` loops. The 64-bit intermediates must fit only when the assertion holds |
| `Timer.RealTimeSleep` | src/devices/timer.c:307-332 | the call sleeps on the timer if and only if the tick count is positive, for exactly that many ticks, and otherwise delays; the busy-wait product must fit in 64 bits only when the call delays |
| `Timer.SleepIffAtLeastOneTick` | src/devices/timer.c:316-331 | for a non-negative request, the call sleeps exactly when `num * TIMER_FREQ >= denom`, and the tick count is the request rounded down |
| `Timer.LongSleepExample` | src/devices/timer.c:316-324 | a ten-minute request with `loops_per_tick = 2^24` sleeps 60000 ticks, although `loops_per_tick * num` would not fit in 64 bits |
| `Timer.DelayNeverOverestimates` | src/devices/timer.c:341 | the busy-wait count is non-negative and never exceeds the requested time: `loops * denom <= loops_per_tick * num * TIMER_FREQ` |
| `Timer.DelayFitsForModestRequests` | src/devices/timer.c:341 | for any 32-bit `loops_per_tick` and `Abs(num) <= 2^31`, the 64-bit intermediates cannot overflow |
| `Timer.MsleepExamples` | src/devices/timer.c:105-108 | in the usual build, `timer_msleep(10)` sleeps one tick and `timer_msleep(5)` busy-waits `loops_per_tick * 5 / 1000 * 100` loops |
| `Timer.BusyWait` | src/devices/timer.c:299-304 | the loop runs `loops` iterations when `loops` is positive and none otherwise |
| `Syscall.FibStepsIsFib` | src/userprog/syscall.c:237-241 | the loop's pair update, started from two consecutive Fibonacci numbers, walks along the sequence |
| `Syscall.LargestInt32Fib` | src/userprog/syscall.c:236-243 | `Fib(46)` fits in an `int` and `Fib(47)` does not, so the loop is overflow-free exactly for `n <= 46` |
| `Syscall.Fibonacci` | src/userprog/syscall.c:231-245 | `fibonacci(0) == 0`, every negative `n` gives 1, and every positive `n` gives `Fib(n)`; the result fits in an `int` |
| `Syscall.SumOfFourInt` | src/userprog/syscall.c:247-250 | returns the C sum; signed overflow is excluded by preconditions on every partial sum |
| `Syscall.SumOfFourSmallInts` | src/userprog/syscall.c:247-250 | four arguments below `2^29` in magnitude never overflow, and the result is `a + b + c + d` in either order |
| `Syscall.ReadTarget` | src/userprog/syscall.c:176-192 | `read` uses the keyboard if and only if `fd == 0` and a table slot if and only if `3 <= fd < 128`; every other descriptor fails |
| `Syscall.WriteTarget` | src/userprog/syscall.c:199-204 | `write` uses the screen if and only if `fd == 1` and a table slot if and only if `3 <= fd < 128`; every other descriptor fails |
| `Syscall.ReadAndWriteTargets` | src/userprog/syscall.c:173-214 | `read` and `write` agree on the table slots and differ exactly on descriptors 0 and 1 |
| `Syscall.AfterExit` | src/userprog/syscall.c:222-227 | after `exit`, slots 0 to 2 are kept and every slot from 3 to 127 is NULL |
| `Syscall.AfterExitIdempotent` | src/userprog/syscall.c:222-227 | a second `exit` finds nothing left to close |
| `Syscall.Process.Open` | src/userprog/syscall.c:269-283 | a NULL name or a failed open gives -1 and changes nothing; otherwise the handle goes to slot `file_cnt`, which is returned, `file_cnt` grows by 1, and no other slot changes |
| `Syscall.Process.Close` | src/userprog/syscall.c:285-290 | an open slot, and only that slot, becomes NULL; a NULL slot makes the thread exit with status -1 |
| `Syscall.Process.Exit` | src/userprog/syscall.c:216-229 | `exit_status` is recorded, the thread ends, and the table becomes `AfterExit` of the old one |
| `Syscall.Process.Read` | src/userprog/syscall.c:173-194 | reading the keyboard returns `size` unchanged (its `int` counter must not overflow, so `size <= INT32_MAX` there); a bad descriptor returns -1; an open slot returns the file's result; a NULL slot exits with status -1; the table is untouched unless the thread exits |
| `Syscall.Process.Write` | src/userprog/syscall.c:196-214 | writing to the screen returns `size` as an `int`; a bad descriptor returns -1 without touching the table; an open slot returns the file's result; a NULL slot exits with status -1 |

## Left out

- Hardware and interrupt plumbing are not modelled. This covers `timer_init`, which programs the 8254 and registers the interrupt, and the interrupt-level snapshot in `timer_ticks`, which is a plain read here.
- `too_many_loops` depends on ticks arriving during a busy-wait, so it is the set `tooMany` of loop counts it answers true for. The real time `busy_wait` takes is not modelled, only its iteration count.
- The thread module is outside the model:
  - `thread_awake`, `thread_tick`, `timer_sleep`, `thread_sleep` and `intr_yield_on_return` are not modelled. The yield request is `Tick`'s result.
  - `get_ready_list_size` is an input.
  - `get_load_avg` and `set_load_avg` read and write the `loadAvg` field.
  - `all_list` is an array of thread records in list order.
  - The current and idle threads are indices into that array.
- Timer.DelayLoop.Calibrate: the assertion at timer.c:49 that interrupts are enabled is not modelled; interrupt levels are outside the model.
- Timer.RealTimeSleep: the assertion at timer.c:318 that interrupts are enabled is not modelled, for the same reason.
- Mlfqs.RawPriority: requires `nice` in `[-20, 20]` (`Mlfqs.NiceInRange`). This is an assumption of the model: no code in this model enforces it, and `thread.c`, where `nice` is set, is not part of this model.
- Timer.Scheduler.constructor: the initial `load_avg` of 0 is assumed, because `load_avg` itself lives in `thread.c` (reached through `get_load_avg` and `set_load_avg`), which is not part of this model.
- Mlfqs.LoadAvgAfter: starts from the assumed boot value 0 of `load_avg`, and so do `Mlfqs.LoadAvgConverges`, `Mlfqs.LoadAvgProgress`, `Mlfqs.LoadAvgReachesLimit` and `Mlfqs.IdleSystemLoadAvgIsZero`.
- Syscall.Process.Read: requires `size <= INT32_MAX` when reading the keyboard, because the `int` loop counter at syscall.c:174-177 would overflow for larger sizes.
- Mlfqs.Priority: requires the same `nice` range.
- Mlfqs.DecayedRecentCpu: requires the same `nice` range.
- Timer.Scheduler.Tick: requires the same `nice` range of every thread, through `Scheduler.Valid`.
- Mlfqs.ValidConfig: bounds `PRI_MIN` and `PRI_MAX` to `[-1024, 1024]` and `TIMER_FREQ` to `[19, 1000]`, so that the formulas stay within 32 bits; the headers defining them are not part of this model.
- `printf` in `timer_calibrate`, `timer_print_stats` and `exit` is not modelled.
- Timer.DelayLoop.Calibrate: the kernel assertion that fails when the doubling wraps to 0 is a `false` result. In that case `loops_per_tick` is 0.
- The C operator `|` is computed on naturals, bit by bit (`Calibration.Or`). It is only applied to values below `2^32`.
- Timer.Scheduler.Tick: it requires the magnitude of every `recent_cpu` to be at most `RECENT_CPU_LIMIT` and `load_avg` to be at most `to_fp(32768)`. This is a sufficient bound for the absence of overflow, not the exact one.
- Mlfqs.DecayedRecentCpu: requires the same kind of sufficient bound on `recent_cpu`.
- Mlfqs.NextLoadAvg: requires at most 32768 ready threads, so that `2 * load_avg` fits in 32 bits.
- Signed overflow is never modelled as wrap-around. The operands' ranges are preconditions instead.
- Syscall.Fibonacci: requires `n <= 46`, the range in which the loop's sums fit in an `int`.
- Syscall.Process.Open: requires `file_cnt` to be a valid slot when a file is actually stored. The source never checks this.
- Syscall.Process.Close: requires `fd` to be in `[0, 128)`, which the source never checks.
- The file system and the console are parameters or not modelled:
  - what `filesys_open`, `file_read` and `file_write` return is a parameter;
  - the effects of `file_close`, `input_getc` and `putbuf` are not modelled;
  - `thread_exit` is the `exited` flag.
- In `Read` and `Write`, after the thread exits, the returned value is never seen by a caller.
- Thread creation, where `file_cnt` is first set, is not part of this model. `Syscall.Process.constructor` takes the first descriptor as a parameter.
- Not modelled from `syscall.c`:
  - the system-call dispatcher's reads of the user stack;
  - `check_valid_addr`, which needs page-table lookups, including its call in `read`;
  - the lock;
  - `halt`, `exec`, `wait`, `create`, `remove`, `filesize`, `seek` and `tell`;
  - the `file_deny_write` call that `open` makes when the name matches the thread's name.
