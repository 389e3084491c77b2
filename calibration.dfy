/** The arithmetic of `timer_calibrate`: `loops_per_tick` is a 32-bit
    unsigned value, modelled as a natural below `2^32` whose shifts are
    written out (`x << 1` loses the top bit, `x >> 1` halves), and `|` is
    bitwise or on naturals. `too_many_loops`, which times a busy-wait against
    the timer, is modelled by the set `tooMany` of loop counts for which it
    answers true: which counts those are depends on the speed of the machine,
    so every lemma holds for any such set. The calibration first doubles
    `loops_per_tick` from `2^10` while the doubled count is not in `tooMany`,
    then tries the nine bits below the high bit one by one, keeping each
    whose probe is not in `tooMany`. */
module Calibration {
  import opened CInt

  datatype Option<T> = None | Some(value: T)

  function Pow2(n: nat): (p: nat)
    ensures p >= 1
  {
    if n == 0 then 1 else 2 * Pow2(n - 1)
  }

  /** `x << 1` on a 32-bit unsigned value. */
  function ShiftLeft(x: nat): (r: nat)
    requires x < UINT32_LIMIT
    ensures r < UINT32_LIMIT
    ensures x < UINT32_LIMIT / 2 ==> r == 2 * x
    ensures x >= UINT32_LIMIT / 2 ==> r == 2 * x - UINT32_LIMIT
  {
    (2 * x) % UINT32_LIMIT
  }

  /** `a | b`: bit 0 of the result is set when it is set in either operand,
      and the higher bits are the or of `a >> 1` and `b >> 1`. */
  function Or(a: nat, b: nat): (r: nat)
    decreases a + b
  {
    if a == 0 then b
    else if b == 0 then a
    else 2 * Or(a / 2, b / 2) + (if a % 2 == 1 || b % 2 == 1 then 1 else 0)
  }

  /** Bit `n` of `a`. */
  function Bit(a: nat, n: nat): (b: nat)
    ensures b < 2
  {
    if n == 0 then a % 2 else Bit(a / 2, n - 1)
  }

  /** The `n` lowest bits of `a` are clear. */
  predicate LowBitsClear(a: nat, n: nat)
  {
    n == 0 || (a % 2 == 0 && LowBitsClear(a / 2, n - 1))
  }

  lemma {:induction false} BitOfZero(n: nat)
    ensures Bit(0, n) == 0
  {
    if n > 0 {
      BitOfZero(n - 1);
    }
  }

  /** Bit `n` of `a | b` is set exactly when it is set in `a` or in `b`. */
  lemma {:induction false} OrBits(a: nat, b: nat, n: nat)
    ensures Bit(Or(a, b), n) == 1 <==> Bit(a, n) == 1 || Bit(b, n) == 1
    decreases n
  {
    if a == 0 {
      BitOfZero(n);
    } else if b == 0 {
      BitOfZero(n);
    } else if n > 0 {
      var r := Or(a / 2, b / 2);
      assert Or(a, b) / 2 == r;
      OrBits(a / 2, b / 2, n - 1);
    }
  }

  // ---------------------------------------------------------------------
  // Powers of two

  lemma {:induction false} Pow2Times1024(n: nat)
    ensures Pow2(n + 10) == 1024 * Pow2(n)
  {
    if n > 0 {
      Pow2Times1024(n - 1);
    } else {
      assert Pow2(10) == 1024;
    }
  }

  /** `2^31`, the largest power of two an unsigned holds, and `2^32`. */
  lemma Pow2Top()
    ensures Pow2(31) == UINT32_LIMIT / 2 && Pow2(32) == UINT32_LIMIT
  {
    Pow2Times1024(10);
    Pow2Times1024(20);
    Pow2Times1024(21);
  }

  lemma {:induction false} Pow2Monotone(m: nat, n: nat)
    requires m < n
    ensures Pow2(m) < Pow2(n)
  {
    if m < n - 1 {
      Pow2Monotone(m, n - 1);
    }
  }

  /** Doubling `2^k` in 32 bits gives `2^(k + 1)`, except that `2^31`
      doubles to 0. */
  lemma Pow2ShiftLeft(k: nat)
    requires k <= 31
    ensures Pow2(k) < UINT32_LIMIT
    ensures k < 31 ==> ShiftLeft(Pow2(k)) == Pow2(k + 1)
    ensures k == 31 ==> ShiftLeft(Pow2(k)) == 0
  {
    Pow2Top();
    if k < 31 {
      Pow2Monotone(k, 31);
    }
  }

  /** `2^k >> 10` is `2^(k - 10)`. */
  lemma Pow2ShiftRight10(k: nat)
    requires k >= 10
    ensures Pow2(k) / 1024 == Pow2(k - 10)
  {
    Pow2Times1024(k - 10);
  }

  lemma {:induction false} ZeroLowBitsClear(n: nat)
    ensures LowBitsClear(0, n)
  {
    if n > 0 {
      ZeroLowBitsClear(n - 1);
    }
  }

  lemma {:induction false} Pow2LowBitsClear(k: nat, n: nat)
    requires n <= k
    ensures LowBitsClear(Pow2(k), n)
  {
    if n > 0 {
      Pow2LowBitsClear(k - 1, n - 1);
    }
  }

  // ---------------------------------------------------------------------
  // Bits

  /** Setting a bit that is clear, with every bit below it clear too, is
      adding it. */
  lemma {:induction false} OrFreshBit(a: nat, n: nat)
    requires LowBitsClear(a, n + 1)
    ensures Or(a, Pow2(n)) == a + Pow2(n)
  {
    if n > 0 {
      OrFreshBit(a / 2, n - 1);
    }
  }

  /** ... and the bits below the new one stay clear. */
  lemma {:induction false} FreshBitKeepsLowBitsClear(a: nat, n: nat, sum: nat)
    requires LowBitsClear(a, n + 1) && sum == a + Pow2(n)
    ensures LowBitsClear(sum, n)
  {
    if n > 0 {
      FreshBitKeepsLowBitsClear(a / 2, n - 1, sum / 2);
    }
  }

  lemma {:induction false} LowBitsClearWeaken(a: nat, m: nat, n: nat)
    requires LowBitsClear(a, n) && m <= n
    ensures LowBitsClear(a, m)
  {
    if m > 0 {
      LowBitsClearWeaken(a / 2, m - 1, n - 1);
    }
  }

  lemma {:induction false} LowBitsClearSum(a: nat, b: nat, sum: nat, n: nat)
    requires LowBitsClear(a, n) && LowBitsClear(b, n) && sum == a + b
    ensures LowBitsClear(sum, n)
  {
    if n > 0 {
      LowBitsClearSum(a / 2, b / 2, sum / 2, n - 1);
    }
  }

  /** Bit `n` of `x = a + (b ? 2^n : 0) + l`, where `a` has its bits up to
      `n` clear and `l < 2^n`, is `b`. */
  lemma {:induction false} BitOfSum(x: nat, a: nat, b: bool, l: nat, n: nat)
    requires LowBitsClear(a, n + 1) && l < Pow2(n)
    requires x == a + (if b then Pow2(n) else 0) + l
    ensures Bit(x, n) == (if b then 1 else 0)
  {
    if n > 0 {
      BitOfSum(x / 2, a / 2, b, l / 2, n - 1);
    }
  }

  // ---------------------------------------------------------------------
  // The doubling loop

  /** The doubling loop entered with `loops_per_tick = 2^k`: `Some(e)` when
      it stops with `loops_per_tick = 2^e`, `None` when `loops_per_tick <<= 1`
      reaches 0 and the loop's ASSERT fails. */
  function HighBit(tooMany: set<nat>, k: nat): (r: Option<nat>)
    requires 10 <= k <= 31
    ensures r.Some? ==> k <= r.value <= 31
    decreases 31 - k
  {
    Pow2ShiftLeft(k);
    var doubled := ShiftLeft(Pow2(k));
    if doubled in tooMany then Some(k)
    else if doubled == 0 then None
    else HighBit(tooMany, k + 1)
  }

  /** The arguments the doubling loop passes to `too_many_loops`. */
  function DoublingProbes(tooMany: set<nat>, k: nat): (probes: seq<nat>)
    requires 10 <= k <= 31
    decreases 31 - k
  {
    Pow2ShiftLeft(k);
    var doubled := ShiftLeft(Pow2(k));
    [doubled] + if doubled in tooMany || doubled == 0 then [] else DoublingProbes(tooMany, k + 1)
  }

  /** The loop stops at the first power of two whose double is in
      `tooMany`: no smaller double was. */
  lemma {:induction false} HighBitIsFirstTooSlow(tooMany: set<nat>, k: nat, e: nat)
    requires 10 <= k <= 31 && HighBit(tooMany, k) == Some(e)
    ensures e < 31 ==> Pow2(e + 1) in tooMany
    ensures e == 31 ==> 0 in tooMany
    ensures forall j :: k < j <= e ==> Pow2(j) !in tooMany
    decreases 31 - k
  {
    Pow2ShiftLeft(k);
    if ShiftLeft(Pow2(k)) !in tooMany {
      HighBitIsFirstTooSlow(tooMany, k + 1, e);
    }
  }

  /** The ASSERT fails exactly when no double up to and including the
      wrapped-around 0 is too slow. */
  lemma {:induction false} HighBitNoneIffNeverTooSlow(tooMany: set<nat>, k: nat)
    requires 10 <= k <= 31
    ensures HighBit(tooMany, k).None? <==>
      (forall j :: k < j <= 31 ==> Pow2(j) !in tooMany) && 0 !in tooMany
    decreases 31 - k
  {
    Pow2ShiftLeft(k);
    if k < 31 {
      HighBitNoneIffNeverTooSlow(tooMany, k + 1);
    }
  }

  /** One probe per pass: the doubles `2^(k + 1), 2^(k + 2), ...` up to the
      first one that is too slow or wraps to 0. */
  lemma {:induction false} DoublingProbesAreDoubles(tooMany: set<nat>, k: nat)
    requires 10 <= k <= 31
    ensures var probes := DoublingProbes(tooMany, k);
      && 1 <= |probes| <= 32 - k
      && (forall i :: 0 <= i < |probes| - 1 ==> k + i < 31 && probes[i] == Pow2(k + i + 1))
      && (HighBit(tooMany, k).Some? ==> |probes| == HighBit(tooMany, k).value - k + 1)
    decreases 31 - k
  {
    Pow2ShiftLeft(k);
    var doubled := ShiftLeft(Pow2(k));
    if !(doubled in tooMany || doubled == 0) {
      DoublingProbesAreDoubles(tooMany, k + 1);
      var rest := DoublingProbes(tooMany, k + 1);
      forall i | 0 <= i < |rest| + 1 - 1
        ensures k + i < 31 && ([doubled] + rest)[i] == Pow2(k + i + 1)
      {
        if i > 0 {
          assert ([doubled] + rest)[i] == rest[i - 1];
        }
      }
    }
  }

  /** The last probe of the doubling is the one that ends it: the too-slow
      double, or the wrapped 0, which is reached after `32 - k` probes exactly
      when the doubling wraps. */
  lemma {:induction false} DoublingLastProbe(tooMany: set<nat>, k: nat)
    requires 10 <= k <= 31
    ensures var probes := DoublingProbes(tooMany, k);
            |probes| >= 1 && (HighBit(tooMany, k).None? ==> |probes| == 32 - k)
    ensures var probes := DoublingProbes(tooMany, k);
            var last := probes[|probes| - 1];
      && (last in tooMany || last == 0)
      && (k + |probes| <= 31 ==> last == Pow2(k + |probes|))
      && (k + |probes| == 32 ==> last == 0)
    decreases 31 - k
  {
    Pow2ShiftLeft(k);
    var doubled := ShiftLeft(Pow2(k));
    if !(doubled in tooMany || doubled == 0) {
      DoublingLastProbe(tooMany, k + 1);
      var rest := DoublingProbes(tooMany, k + 1);
      assert DoublingProbes(tooMany, k) == [doubled] + rest;
      assert ([doubled] + rest)[|rest|] == rest[|rest| - 1];
    }
  }

  /** What holds at the top of each pass of the doubling loop, with
      `loops_per_tick = 2^k` and `probes` the loop counts asked about so far. */
  ghost predicate DoublingInvariant(tooMany: set<nat>, k: nat, loops: nat, probes: seq<nat>)
  {
    && 10 <= k <= 31 && loops == Pow2(k)
    && HighBit(tooMany, k) == HighBit(tooMany, 10)
    && probes + DoublingProbes(tooMany, k) == DoublingProbes(tooMany, 10)
  }

  lemma DoublingInvariantStart(tooMany: set<nat>)
    ensures DoublingInvariant(tooMany, 10, 1024, [])
  {
    assert [] + DoublingProbes(tooMany, 10) == DoublingProbes(tooMany, 10);
  }

  /** One pass: `too_many_loops` accepted the double, which becomes the new
      `loops_per_tick`; if it wrapped to 0 the doubling has run out. */
  lemma DoublingInvariantStep(tooMany: set<nat>, k: nat, loops: nat, probes: seq<nat>, doubled: nat)
    requires DoublingInvariant(tooMany, k, loops, probes)
    requires doubled == ShiftLeft(loops) && doubled !in tooMany
    ensures doubled == 0 ==> HighBit(tooMany, 10) == None && probes + [doubled] == DoublingProbes(tooMany, 10)
    ensures doubled != 0 ==> DoublingInvariant(tooMany, k + 1, doubled, probes + [doubled])
  {
    Pow2ShiftLeft(k);
    var rest := if doubled == 0 then [] else DoublingProbes(tooMany, k + 1);
    assert DoublingProbes(tooMany, k) == [doubled] + rest;
    assert probes + DoublingProbes(tooMany, k) == (probes + [doubled]) + rest;
    if doubled == 0 {
      assert rest == [];
    }
  }

  /** The loop ends when `too_many_loops` rejects the double of `2^k`. */
  lemma DoublingInvariantEnd(tooMany: set<nat>, k: nat, loops: nat, probes: seq<nat>)
    requires DoublingInvariant(tooMany, k, loops, probes) && ShiftLeft(loops) in tooMany
    ensures HighBit(tooMany, 10) == Some(k)
    ensures probes + [ShiftLeft(loops)] == DoublingProbes(tooMany, 10)
  {
    assert DoublingProbes(tooMany, k) == [ShiftLeft(loops)];
  }

  // ---------------------------------------------------------------------
  // The refinement loop

  /** The refinement loop with `high_bit = 2^k`, the current
      `loops_per_tick` and `test_bit = 2^e`; it stops when `test_bit` reaches
      `high_bit >> 10`. */
  function Refine(tooMany: set<nat>, k: nat, loops: nat, e: nat): (r: nat)
    requires 10 <= k <= 31 && k - 10 <= e < k
    decreases e
  {
    if e == k - 10 then loops
    else
      var next := if Or(Pow2(k), Pow2(e)) !in tooMany then Or(loops, Pow2(e)) else loops;
      Refine(tooMany, k, next, e - 1)
  }

  /** The arguments the refinement loop passes to `too_many_loops`. */
  function RefineProbes(k: nat, e: nat): (probes: seq<nat>)
    requires 10 <= k <= 31 && k - 10 <= e < k
    decreases e
  {
    if e == k - 10 then [] else [Or(Pow2(k), Pow2(e))] + RefineProbes(k, e - 1)
  }

  /** The value of the refinement probe `high_bit | test_bit` for
      `high_bit = 2^k` and `test_bit = 2^e` (a sum, as the bits differ). */
  function Probe(k: nat, e: nat): (probe: nat)
  {
    Pow2(k) + Pow2(e)
  }

  /** The whole refinement, from `loops_per_tick = high_bit = 2^k`. */
  function RefinedLoops(tooMany: set<nat>, k: nat): (loops: nat)
    requires 10 <= k <= 31
  {
    Refine(tooMany, k, Pow2(k), k - 1)
  }

  /** Every argument the refinement passes to `too_many_loops`. */
  function RefinementProbes(k: nat): (probes: seq<nat>)
    requires 10 <= k <= 31
  {
    RefineProbes(k, k - 1)
  }

  /** Test bit `2^e` as it ends up in the result: kept exactly when the
      oracle found the probe `high_bit | 2^e` fast enough. */
  function Kept(tooMany: set<nat>, k: nat, e: nat): (bit: nat)
  {
    if Probe(k, e) !in tooMany then Pow2(e) else 0
  }

  /** The kept bits among `2^e, 2^(e - 1), ..., 2^(k - 9)`. */
  function KeptBelow(tooMany: set<nat>, k: nat, e: nat): (bits: nat)
    requires 10 <= k <= 31 && k - 10 <= e < k
    decreases e
  {
    if e == k - 10 then 0 else Kept(tooMany, k, e) + KeptBelow(tooMany, k, e - 1)
  }

  /** The kept bits among `2^(k - 1), ..., 2^(e + 1)`. */
  function KeptAbove(tooMany: set<nat>, k: nat, e: nat): (bits: nat)
    requires 10 <= k <= 31 && k - 10 <= e < k
    decreases k - e
  {
    if e == k - 1 then 0 else Kept(tooMany, k, e + 1) + KeptAbove(tooMany, k, e + 1)
  }

  /** `high_bit = 2^k` plus every kept test bit. */
  function WithKeptBits(tooMany: set<nat>, k: nat): (loops: nat)
    requires 10 <= k <= 31
  {
    Pow2(k) + KeptBelow(tooMany, k, k - 1)
  }

  lemma {:induction false} KeptBelowBound(tooMany: set<nat>, k: nat, e: nat)
    requires 10 <= k <= 31 && k - 10 <= e < k
    ensures KeptBelow(tooMany, k, e) < 2 * Pow2(e)
    decreases e
  {
    if e > k - 10 {
      KeptBelowBound(tooMany, k, e - 1);
    }
  }

  lemma {:induction false} KeptBelowClear(tooMany: set<nat>, k: nat, e: nat)
    requires 10 <= k <= 31 && k - 10 <= e < k
    ensures LowBitsClear(KeptBelow(tooMany, k, e), k - 9)
    decreases e
  {
    ZeroLowBitsClear(k - 9);
    if e > k - 10 {
      KeptBelowClear(tooMany, k, e - 1);
      Pow2LowBitsClear(e, k - 9);
      LowBitsClearSum(Kept(tooMany, k, e), KeptBelow(tooMany, k, e - 1), KeptBelow(tooMany, k, e), k - 9);
    }
  }

  lemma {:induction false} KeptAboveClear(tooMany: set<nat>, k: nat, e: nat)
    requires 10 <= k <= 31 && k - 10 <= e < k
    ensures LowBitsClear(KeptAbove(tooMany, k, e), e + 1)
    decreases k - e
  {
    if e < k - 1 {
      KeptAboveClear(tooMany, k, e + 1);
      LowBitsClearWeaken(KeptAbove(tooMany, k, e + 1), e + 1, e + 2);
      Pow2LowBitsClear(e + 1, e + 1);
      ZeroLowBitsClear(e + 1);
      LowBitsClearSum(Kept(tooMany, k, e + 1), KeptAbove(tooMany, k, e + 1), KeptAbove(tooMany, k, e), e + 1);
    } else {
      ZeroLowBitsClear(e + 1);
    }
  }

  /** All the kept bits, split around bit `e`. */
  lemma {:induction false} KeptSplit(tooMany: set<nat>, k: nat, e: nat)
    requires 10 <= k <= 31 && k - 10 <= e < k
    ensures KeptBelow(tooMany, k, k - 1) == KeptAbove(tooMany, k, e) + KeptBelow(tooMany, k, e)
    decreases k - e
  {
    if e < k - 1 {
      KeptSplit(tooMany, k, e + 1);
      KeptStep(tooMany, k, e);
    }
  }

  /** Moving bit `e + 1` from the kept bits above `e` to those below. */
  lemma KeptStep(tooMany: set<nat>, k: nat, e: nat)
    requires 10 <= k <= 31 && k - 10 <= e < k - 1
    ensures KeptAbove(tooMany, k, e) == Kept(tooMany, k, e + 1) + KeptAbove(tooMany, k, e + 1)
    ensures KeptBelow(tooMany, k, e + 1) == Kept(tooMany, k, e + 1) + KeptBelow(tooMany, k, e)
  {
  }

  /** A refinement pass from a value whose bits up to `test_bit` are clear
      adds exactly the kept bits: each `|` sets a bit that was clear. */
  lemma {:induction false} RefineAddsKeptBits(tooMany: set<nat>, k: nat, loops: nat, e: nat)
    requires 10 <= k <= 31 && k - 10 <= e < k
    requires LowBitsClear(loops, e + 1)
    ensures Refine(tooMany, k, loops, e) == loops + KeptBelow(tooMany, k, e)
    decreases e
  {
    if e > k - 10 {
      var probe := Or(Pow2(k), Pow2(e));
      var next := if probe !in tooMany then Or(loops, Pow2(e)) else loops;
      ProbeIsSum(k, e);
      if probe !in tooMany {
        OrFreshBit(loops, e);
        FreshBitKeepsLowBitsClear(loops, e, next);
      } else {
        LowBitsClearWeaken(loops, e, e + 1);
      }
      RefineAddsKeptBits(tooMany, k, next, e - 1);
    }
  }

  /** Starting from `loops_per_tick = high_bit = 2^k`, the refinement
      reaches `high_bit` plus the bits `too_many_loops` accepted. */
  lemma RefineKeepsAcceptedBits(tooMany: set<nat>, k: nat)
    requires 10 <= k <= 31
    ensures RefinedLoops(tooMany, k) == WithKeptBits(tooMany, k)
  {
    Pow2LowBitsClear(k, k);
    RefineAddsKeptBits(tooMany, k, Pow2(k), k - 1);
  }

  /** `high_bit` plus kept bits lies in `[high_bit, 2 * high_bit)`. */
  lemma WithKeptBitsRange(tooMany: set<nat>, k: nat)
    requires 10 <= k <= 31
    ensures Pow2(k) <= WithKeptBits(tooMany, k) < 2 * Pow2(k)
  {
    KeptBelowBound(tooMany, k, k - 1);
    assert Pow2(k) == 2 * Pow2(k - 1);
  }

  /** Its bits below `high_bit >> 9` are clear. */
  lemma WithKeptBitsLowBits(tooMany: set<nat>, k: nat)
    requires 10 <= k <= 31
    ensures LowBitsClear(WithKeptBits(tooMany, k), k - 9)
  {
    KeptBelowClear(tooMany, k, k - 1);
    Pow2LowBitsClear(k, k - 9);
    LowBitsClearSum(Pow2(k), KeptBelow(tooMany, k, k - 1), WithKeptBits(tooMany, k), k - 9);
  }

  /** Its high bit is set. */
  lemma WithKeptBitsHighBit(tooMany: set<nat>, k: nat)
    requires 10 <= k <= 31
    ensures Bit(WithKeptBits(tooMany, k), k) == 1
  {
    KeptBelowBound(tooMany, k, k - 1);
    ZeroLowBitsClear(k + 1);
    BitOfSum(WithKeptBits(tooMany, k), 0, true, KeptBelow(tooMany, k, k - 1), k);
  }

  /** `high_bit` plus the kept bits above `2^e` has bit `e` and all below clear. */
  lemma AboveTestBitClear(tooMany: set<nat>, k: nat, e: nat, above: nat)
    requires 10 <= k <= 31 && k - 10 <= e < k && above == Pow2(k) + KeptAbove(tooMany, k, e)
    ensures LowBitsClear(above, e + 1)
  {
    Pow2LowBitsClear(k, e + 1);
    KeptAboveClear(tooMany, k, e);
    LowBitsClearSum(Pow2(k), KeptAbove(tooMany, k, e), above, e + 1);
  }

  /** Each test bit `2^e` is set exactly when it was kept. */
  lemma WithKeptBitsTestBit(tooMany: set<nat>, k: nat, e: nat)
    requires 10 <= k <= 31 && k - 10 < e < k
    ensures Bit(WithKeptBits(tooMany, k), e) == 1 <==> Probe(k, e) !in tooMany
  {
    var above := Pow2(k) + KeptAbove(tooMany, k, e);
    var below := KeptBelow(tooMany, k, e - 1);
    AboveTestBitClear(tooMany, k, e, above);
    KeptSplit(tooMany, k, e);
    assert KeptBelow(tooMany, k, e) == Kept(tooMany, k, e) + below;
    KeptBelowBound(tooMany, k, e - 1);
    assert Pow2(e) == 2 * Pow2(e - 1);
    BitOfSum(WithKeptBits(tooMany, k), above, Probe(k, e) !in tooMany, below, e);
  }

  lemma {:induction false} RefineProbesLength(k: nat, e: nat)
    requires 10 <= k <= 31 && k - 10 <= e < k
    ensures |RefineProbes(k, e)| == e - (k - 10)
    decreases e
  {
    if e > k - 10 {
      RefineProbesLength(k, e - 1);
    }
  }

  /** A refinement probe `high_bit | test_bit` is `high_bit + test_bit`:
      the two bits differ. */
  lemma ProbeIsSum(k: nat, e: nat)
    requires e < k
    ensures Or(Pow2(k), Pow2(e)) == Probe(k, e)
  {
    Pow2LowBitsClear(k, e + 1);
    OrFreshBit(Pow2(k), e);
  }

  /** The `i`-th refinement probe is `high_bit | 2^(e - i)`. */
  lemma {:induction false} RefineProbe(k: nat, e: nat, i: nat)
    requires 10 <= k <= 31 && k - 10 <= e < k && i < e - (k - 10)
    ensures i < |RefineProbes(k, e)| && RefineProbes(k, e)[i] == Or(Pow2(k), Pow2(e - i))
    decreases e
  {
    RefineProbesLength(k, e);
    assert RefineProbes(k, e) == [Or(Pow2(k), Pow2(e))] + RefineProbes(k, e - 1);
    if i > 0 {
      RefineProbe(k, e - 1, i - 1);
      assert e - 1 - (i - 1) == e - i;
    }
  }

  /** What holds at the head of the refinement loop: `test_bit = 2^e`, the
      rest of the refinement from the current `loops_per_tick` ends where the
      whole one does, and the probes so far followed by the remaining ones
      are all of them. */
  ghost predicate RefineInvariant(tooMany: set<nat>, k: nat, loops: nat, testBit: nat, e: nat, probes: seq<nat>)
  {
    && 10 <= k <= 31 && k - 10 <= e < k && testBit == Pow2(e)
    && Refine(tooMany, k, loops, e) == RefinedLoops(tooMany, k)
    && probes + RefineProbes(k, e) == RefinementProbes(k)
  }

  lemma RefineInvariantStart(tooMany: set<nat>, k: nat)
    requires 10 <= k <= 31
    ensures RefineInvariant(tooMany, k, Pow2(k), Pow2(k) / 2, k - 1, [])
  {
    assert Pow2(k) == 2 * Pow2(k - 1);
    assert [] + RefineProbes(k, k - 1) == RefineProbes(k, k - 1);
  }

  /** One iteration: probe `high_bit | test_bit`, set the test bit if the
      probe is fast enough, and halve the test bit. */
  lemma RefineInvariantStep(tooMany: set<nat>, k: nat, loops: nat, testBit: nat, e: nat, probes: seq<nat>,
                            probe: nat, next: nat)
    requires RefineInvariant(tooMany, k, loops, testBit, e, probes)
    requires testBit != Pow2(k) / 1024 && probe == Or(Pow2(k), testBit)
    requires next == if probe !in tooMany then Or(loops, testBit) else loops
    ensures RefineInvariant(tooMany, k, next, testBit / 2, e - 1, probes + [probe])
  {
    Pow2ShiftRight10(k);
    assert e != k - 10;
    assert Pow2(e) == 2 * Pow2(e - 1);
    assert RefineProbes(k, e) == [probe] + RefineProbes(k, e - 1);
    assert probes + RefineProbes(k, e) == (probes + [probe]) + RefineProbes(k, e - 1);
  }

  /** When `test_bit` reaches `high_bit >> 10` the refinement is complete. */
  lemma RefineInvariantEnd(tooMany: set<nat>, k: nat, loops: nat, testBit: nat, e: nat, probes: seq<nat>)
    requires RefineInvariant(tooMany, k, loops, testBit, e, probes)
    requires testBit == Pow2(k) / 1024
    ensures loops == RefinedLoops(tooMany, k) && probes == RefinementProbes(k)
  {
    Pow2ShiftRight10(k);
    if e > k - 10 {
      Pow2Monotone(k - 10, e);
    }
    assert probes + [] == probes;
  }

  // ---------------------------------------------------------------------
  // The whole calibration

  datatype Outcome = Calibrated(loopsPerTick: nat) | LoopCountWrapped

  function CalibrationOutcome(tooMany: set<nat>): (outcome: Outcome)
  {
    match HighBit(tooMany, 10)
    case None => LoopCountWrapped
    case Some(k) => Calibrated(RefinedLoops(tooMany, k))
  }

  /** The calibration gives up exactly when every doubling up to `2^31` was
      fast enough and the doubling wrapped to 0 without `too_many_loops` objecting. */
  lemma CalibrationWraps(tooMany: set<nat>)
    ensures CalibrationOutcome(tooMany) == LoopCountWrapped <==>
      (forall j :: 10 < j <= 31 ==> Pow2(j) !in tooMany) && 0 !in tooMany
  {
    HighBitNoneIffNeverTooSlow(tooMany, 10);
  }

  /** A calibrated `loops_per_tick` is `high_bit = 2^k` with the kept test
      bits added, where `k` is the power of two the doubling stopped at. */
  lemma CalibratedIsKeptBits(tooMany: set<nat>, k: nat, lpt: nat)
    requires HighBit(tooMany, 10) == Some(k) && CalibrationOutcome(tooMany) == Calibrated(lpt)
    ensures 10 <= k <= 31 && lpt == WithKeptBits(tooMany, k)
  {
    RefineKeepsAcceptedBits(tooMany, k);
  }

  /** The calibration starts from a power of two `high_bit >= 1024` whose
      double `too_many_loops` finds too slow (or which wraps to 0), after every
      smaller power of two from 2048 on was fast enough. */
  lemma CalibratedHighBit(tooMany: set<nat>, k: nat, j: nat)
    requires HighBit(tooMany, 10) == Some(k)
    ensures 10 <= k <= 31 && 1024 <= Pow2(k)
    ensures k < 31 ==> Pow2(k + 1) in tooMany
    ensures k == 31 ==> 0 in tooMany
    ensures 10 < j <= k ==> Pow2(j) !in tooMany
  {
    HighBitIsFirstTooSlow(tooMany, 10, k);
    assert Pow2(10) == 1024;
    if k > 10 {
      Pow2Monotone(10, k);
    }
  }

  /** `loops_per_tick` lies in `[high_bit, 2 * high_bit)`, so it still fits
      in an `unsigned`. */
  lemma CalibratedRange(tooMany: set<nat>, k: nat, lpt: nat)
    requires HighBit(tooMany, 10) == Some(k) && CalibrationOutcome(tooMany) == Calibrated(lpt)
    ensures Pow2(k) <= lpt < 2 * Pow2(k) && lpt < UINT32_LIMIT
  {
    CalibratedIsKeptBits(tooMany, k, lpt);
    WithKeptBitsRange(tooMany, k);
    Pow2ShiftLeft(k);
  }

  /** `loops_per_tick` has bit `k` set and every bit below `high_bit >> 9`
      clear: only the nine test bits were refined. */
  lemma CalibratedLowBits(tooMany: set<nat>, k: nat, lpt: nat)
    requires HighBit(tooMany, 10) == Some(k) && CalibrationOutcome(tooMany) == Calibrated(lpt)
    ensures LowBitsClear(lpt, k - 9) && Bit(lpt, k) == 1
  {
    CalibratedIsKeptBits(tooMany, k, lpt);
    WithKeptBitsLowBits(tooMany, k);
    WithKeptBitsHighBit(tooMany, k);
  }

  /** Each of the nine test bits `2^e` is set exactly when `too_many_loops` found
      `high_bit | 2^e` fast enough. */
  lemma CalibratedTestBit(tooMany: set<nat>, k: nat, lpt: nat, e: nat)
    requires HighBit(tooMany, 10) == Some(k) && CalibrationOutcome(tooMany) == Calibrated(lpt)
    requires k - 10 < e < k
    ensures Bit(lpt, e) == 1 <==> Probe(k, e) !in tooMany
  {
    CalibratedIsKeptBits(tooMany, k, lpt);
    WithKeptBitsTestBit(tooMany, k, e);
  }
}
